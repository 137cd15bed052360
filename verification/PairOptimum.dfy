/** What `size_buy_pair` has to find: the best funded, fully covered quantity on the grid,
    and the linear bound that its search prunes with. */
module PairOptimum {
  import opened FixedPoint
  import opened ExecutionCost
  import opened Reservation
  import opened DepthWalk

  datatype Pair = Pair(first: BuyDepth, second: BuyDepth)
  datatype SizedPair = SizedPair(quantity: int, first: SizedLeg, second: SizedLeg, payoutFloor: int, netMargin: int)

  predicate ValidDepth(d: BuyDepth) {
    ValidFee(d.fees) && |d.levels| <= 10_001 && Ascending(d.levels)
  }

  predicate ValidLimits(lim: SizingLimits) {
    && lim.cap <= QUANTITY_LIMIT && (lim.step == 1 || lim.step == 100) && lim.step <= lim.cap
    && lim.available <= CASH_LIMIT && lim.minimumMargin <= CASH_LIMIT && lim.maxEvaluations != 0
  }

  predicate ValidInput(d: Pair, lim: SizingLimits) {
    ValidLimits(lim) && ValidDepth(d.first) && ValidDepth(d.second)
  }

  predicate Covered(d: Pair, step: nat, q: nat)
    requires ValidDepth(d.first) && ValidDepth(d.second) && step > 0
  {
    Acquire(d.first, step, q).Some? && Acquire(d.second, step, q).Some?
  }

  /** Guaranteed payout of q pairs less both debits. */
  function Margin(d: Pair, step: nat, q: nat): int
    requires ValidDepth(d.first) && ValidDepth(d.second) && step > 0 && Covered(d, step, q)
  {
    q * 10_000 - LegOf(d.first, step, q).debit - LegOf(d.second, step, q).debit
  }

  function PairReserve(d: Pair, step: nat, q: nat): int
    requires ValidDepth(d.first) && ValidDepth(d.second) && step > 0 && Covered(d, step, q)
  {
    LegOf(d.first, step, q).reservation + LegOf(d.second, step, q).reservation
  }

  /** The quantities that compete: on the grid, covered, funded and above the minimum margin. */
  predicate Candidate(d: Pair, lim: SizingLimits, q: nat)
    requires ValidInput(d, lim)
  {
    && OnGrid(q, lim.step) && lim.step <= q <= lim.cap
    && Covered(d, lim.step, q)
    && PairReserve(d, lim.step, q) <= lim.available
    && Margin(d, lim.step, q) > lim.minimumMargin
  }

  /** Greater margin, then smaller reservation, then smaller quantity. */
  predicate Beats(m: int, r: int, q: int, m': int, r': int, q': int) {
    m > m' || (m == m' && (r < r' || (r == r' && q < q')))
  }

  /** `s` quotes a candidate that beats every other candidate. */
  ghost predicate IsOptimum(d: Pair, lim: SizingLimits, s: SizedPair)
    requires ValidInput(d, lim)
  {
    && s.quantity >= 0 && Candidate(d, lim, s.quantity)
    && s == SizedPair(s.quantity, LegOf(d.first, lim.step, s.quantity), LegOf(d.second, lim.step, s.quantity),
                      s.quantity * 10_000, Margin(d, lim.step, s.quantity))
    && forall q :: 0 <= q && q != s.quantity && Candidate(d, lim, q) ==>
         Beats(Margin(d, lim.step, s.quantity), PairReserve(d, lim.step, s.quantity), s.quantity,
               Margin(d, lim.step, q), PairReserve(d, lim.step, q), q)
  }

  // ------------------------------------------------------------------------
  // Funding
  // ------------------------------------------------------------------------

  lemma FundingMonotone(d: Pair, step: nat, q: nat, q': nat)
    requires ValidDepth(d.first) && ValidDepth(d.second) && step > 0 && q <= q' && Covered(d, step, q')
    ensures Covered(d, step, q) && PairReserve(d, step, q) <= PairReserve(d, step, q')
  {
    AcquireMonotone(d.first, step, q, q');
    AcquireMonotone(d.second, step, q, q');
  }

  // ------------------------------------------------------------------------
  // Best prices that sum to a dollar leave no margin
  // ------------------------------------------------------------------------

  lemma {:induction false} WalkCostsAtLeast(levels: seq<BuyLevel>, step: nat, q: nat, fee: FeePolicy, l: Ledger, p: Price)
    requires ValidFee(fee) && step > 0 && (forall i :: 0 <= i < |levels| ==> p <= levels[i].price)
    ensures Walk(levels, step, q, fee, l).Some? ==> Walk(levels, step, q, fee, l).value.ledger.cash >= l.cash + q * p
    decreases levels
  {
    hide AddFill;
    if levels != [] {
      var size := LevelSize(levels[0], step);
      if size == 0 {
        WalkCostsAtLeast(levels[1..], step, q, fee, l, p);
      } else if q <= size {
        FillCostsAtLeast(l, Trade(q, levels[0].price), fee, p);
      } else {
        FillCostsAtLeast(l, Trade(size, levels[0].price), fee, p);
        WalkCostsAtLeast(levels[1..], step, q - size, fee, AddFill(true, l, Trade(size, levels[0].price), fee), p);
        Distribute(size, q - size, p);
      }
    }
  }

  lemma FillCostsAtLeast(l: Ledger, t: Trade, fee: FeePolicy, p: Price)
    requires ValidFee(fee) && p <= t.price
    ensures AddFill(true, l, t, fee).cash >= l.cash + t.quantity * p
  {
    hide Fill;
    FillMeaning(true, t.quantity, t.price, fee, l.rounding);
    FillTotals(true, t, fee, l.rounding);
    MulMonotone(p, t.price, t.quantity);
  }

  lemma LegCostsAtLeast(d: BuyDepth, step: nat, k: nat, q: nat)
    requires ValidDepth(d) && step > 0 && k < |d.levels| && PrefixLedger(d, step, k) == OPENED && q > 0
    ensures Acquire(d, step, q).Some? ==> LegOf(d, step, q).debit >= q * d.levels[k].price
  {
    hide Walk, PrefixLedger;
    WalkPassesPrefix(d, step, k, q);
    WalkCostsAtLeast(d.levels[k..], step, q, d.fees, OPENED, d.levels[k].price);
  }

  lemma NoMarginAtADollar(d: Pair, lim: SizingLimits, i: nat, j: nat, q: nat)
    requires ValidInput(d, lim) && i < |d.first.levels| && j < |d.second.levels|
    requires PrefixLedger(d.first, lim.step, i) == OPENED && PrefixLedger(d.second, lim.step, j) == OPENED
    requires d.first.levels[i].price + d.second.levels[j].price >= 10_000
    ensures !Candidate(d, lim, q)
  {
    hide Walk, Reserve, PrefixLedger;
    if Candidate(d, lim, q) {
      LegCostsAtLeast(d.first, lim.step, i, q);
      LegCostsAtLeast(d.second, lim.step, j, q);
      Distribute(d.first.levels[i].price, d.second.levels[j].price, q);
      MulMonotone(10_000, d.first.levels[i].price + d.second.levels[j].price, q);
    }
  }

  // ------------------------------------------------------------------------
  // One price segment: both active levels fixed
  // ------------------------------------------------------------------------

  predicate InLevel(d: BuyDepth, step: nat, k: nat, q: int)
    requires ValidFee(d.fees) && step > 0
  {
    k < |d.levels| && PrefixQuantity(d, step, k) < q <= PrefixQuantity(d, step, k) + LevelSize(d.levels[k], step)
  }

  /** FEE_DENOMINATOR times what q costs at level k if the active fill's fee were not
      rounded and no rounding stayed outstanding: linear in q. */
  function ExactCost(d: BuyDepth, step: nat, k: nat, q: int): int
    requires ValidFee(d.fees) && step > 0 && k < |d.levels|
  {
    var l, p := PrefixLedger(d, step, k), d.levels[k].price;
    (l.cash - l.rounding) * FEE_DENOMINATOR
      + (q - l.quantity) * (p * FEE_DENOMINATOR + FeeFactor(p, d.fees.coefficient))
  }

  /** The rounding outstanding after q, and what its last fee rounds up, times FEE_DENOMINATOR. */
  function RoundingAfter(d: BuyDepth, step: nat, k: nat, q: int): int
    requires ValidFee(d.fees) && step > 0 && k < |d.levels| && q >= PrefixQuantity(d, step, k)
  {
    var l := PrefixLedger(d, step, k);
    AddFill(true, l, Trade(q - l.quantity, d.levels[k].price), d.fees).rounding
  }

  function FeeCeilError(x: nat, factor: nat): int {
    CeilDiv(x * factor, FEE_DENOMINATOR) * FEE_DENOMINATOR - x * factor
  }

  /** The code finds that error from a remainder whose factors are reduced first. */
  lemma CeilErrorByRemainder(x: nat, factor: nat)
    ensures var r := (x * (factor % FEE_DENOMINATOR)) % FEE_DENOMINATOR;
      FeeCeilError(x, factor) == (if r != 0 then FEE_DENOMINATOR - r else 0)
    ensures 0 <= FeeCeilError(x, factor) < FEE_DENOMINATOR
    ensures x <= QUANTITY_LIMIT ==> x * (factor % FEE_DENOMINATOR) <= QUANTITY_LIMIT * FEE_DENOMINATOR
  {
    ModOfProduct(x, factor, FEE_DENOMINATOR);
    CeilDivOfFloor(x * factor, FEE_DENOMINATOR);
    if x <= QUANTITY_LIMIT {
      MulMonotone(x, QUANTITY_LIMIT, factor % FEE_DENOMINATOR);
    }
  }

  /** debit = exact cost + outstanding rounding + the fee's ceiling error. */
  lemma LegIdentity(d: BuyDepth, step: nat, k: nat, q: nat)
    requires ValidFee(d.fees) && step > 0 && InLevel(d, step, k, q)
    ensures Acquire(d, step, q).Some?
    ensures LegOf(d, step, q).limit == d.levels[k].price
    ensures var x := q - PrefixQuantity(d, step, k);
      LegOf(d, step, q).debit * FEE_DENOMINATOR
      == ExactCost(d, step, k, q) + RoundingAfter(d, step, k, q) * FEE_DENOMINATOR
         + FeeCeilError(x, FeeFactor(d.levels[k].price, d.fees.coefficient))
  {
    hide Fill, FeeFactor, CeilDiv, Walk, PrefixLedger;
    WalkInLevel(d, step, k, q);
    var l, p := PrefixLedger(d, step, k), d.levels[k].price;
    var t := Trade(q - l.quantity, p);
    FillMeaning(true, t.quantity, p, d.fees, l.rounding);
    FillTotals(true, t, d.fees, l.rounding);
    var factor := FeeFactor(p, d.fees.coefficient);
    assert t.quantity * (p * FEE_DENOMINATOR + factor) == (t.quantity * p) * FEE_DENOMINATOR + t.quantity * factor;
  }

  /** FEE_DENOMINATOR times the margin of q without rounding. */
  function ExactMargin(d: Pair, step: nat, i: nat, j: nat, q: int): int
    requires ValidDepth(d.first) && ValidDepth(d.second) && step > 0
    requires i < |d.first.levels| && j < |d.second.levels|
  {
    q * (10_000 * FEE_DENOMINATOR) - ExactCost(d.first, step, i, q) - ExactCost(d.second, step, j, q)
  }

  function Slope(d: Pair, i: nat, j: nat): int
    requires i < |d.first.levels| && j < |d.second.levels|
  {
    var p, p' := d.first.levels[i].price, d.second.levels[j].price;
    FEE_DENOMINATOR * (10_000 - p - p') - FeeFactor(p, d.first.fees.coefficient) - FeeFactor(p', d.second.fees.coefficient)
  }

  lemma ExactMarginLinear(d: Pair, step: nat, i: nat, j: nat, q: int, q': int)
    requires ValidDepth(d.first) && ValidDepth(d.second) && step > 0
    requires i < |d.first.levels| && j < |d.second.levels|
    ensures ExactMargin(d, step, i, j, q') - ExactMargin(d, step, i, j, q) == (q' - q) * Slope(d, i, j)
  {
    hide FeeFactor, PrefixLedger;
    var l, l' := PrefixLedger(d.first, step, i), PrefixLedger(d.second, step, j);
    var u := d.first.levels[i].price * FEE_DENOMINATOR + FeeFactor(d.first.levels[i].price, d.first.fees.coefficient);
    var u' := d.second.levels[j].price * FEE_DENOMINATOR + FeeFactor(d.second.levels[j].price, d.second.fees.coefficient);
    LinearDifference(q, q', l.quantity, u);
    LinearDifference(q, q', l'.quantity, u');
    assert Slope(d, i, j) == 10_000 * FEE_DENOMINATOR - u - u';
    assert (q' - q) * (10_000 * FEE_DENOMINATOR - u - u') == (q' - q) * (10_000 * FEE_DENOMINATOR) - (q' - q) * u - (q' - q) * u';
  }

  lemma LinearDifference(q: int, q': int, c: int, u: int)
    ensures (q' - c) * u - (q - c) * u == (q' - q) * u
  {
  }

  /** The integer bound that an evaluation at q reports. */
  function Upper(d: Pair, step: nat, i: nat, j: nat, q: int): int
    requires ValidDepth(d.first) && ValidDepth(d.second) && step > 0
    requires i < |d.first.levels| && j < |d.second.levels|
  {
    ExactMargin(d, step, i, j, q) / FEE_DENOMINATOR
  }

  predicate InSegment(d: Pair, step: nat, i: nat, j: nat, q: int)
    requires ValidDepth(d.first) && ValidDepth(d.second) && step > 0
  {
    InLevel(d.first, step, i, q) && InLevel(d.second, step, j, q)
  }

  /** The bound is the margin with its rounding losses given back, rounded down. */
  lemma UpperFromMargin(d: Pair, step: nat, i: nat, j: nat, q: nat, error: int)
    requires ValidDepth(d.first) && ValidDepth(d.second) && step > 0 && InSegment(d, step, i, j, q)
    requires error
      == FeeCeilError(q - PrefixQuantity(d.first, step, i), FeeFactor(d.first.levels[i].price, d.first.fees.coefficient))
       + FeeCeilError(q - PrefixQuantity(d.second, step, j), FeeFactor(d.second.levels[j].price, d.second.fees.coefficient))
    ensures Covered(d, step, q)
    ensures Upper(d, step, i, j, q)
      == Margin(d, step, q) + RoundingAfter(d.first, step, i, q) + RoundingAfter(d.second, step, j, q) + error / FEE_DENOMINATOR
    ensures Margin(d, step, q) <= Upper(d, step, i, j, q)
  {
    hide FeeFactor, PrefixLedger, FeeCeilError, ExactCost, Walk, RoundingAfter;
    LegIdentity(d.first, step, i, q);
    LegIdentity(d.second, step, j, q);
    CeilErrorByRemainder(q - PrefixQuantity(d.first, step, i), FeeFactor(d.first.levels[i].price, d.first.fees.coefficient));
    CeilErrorByRemainder(q - PrefixQuantity(d.second, step, j), FeeFactor(d.second.levels[j].price, d.second.fees.coefficient));
    RoundingNonNegative(d.first, step, i, q);
    RoundingNonNegative(d.second, step, j, q);
    var whole := Margin(d, step, q) + RoundingAfter(d.first, step, i, q) + RoundingAfter(d.second, step, j, q);
    assert ExactMargin(d, step, i, j, q) == whole * FEE_DENOMINATOR + error;
    DivUnique(ExactMargin(d, step, i, j, q), FEE_DENOMINATOR, whole + error / FEE_DENOMINATOR);
  }

  lemma RoundingNonNegative(d: BuyDepth, step: nat, k: nat, q: int)
    requires ValidFee(d.fees) && step > 0 && k < |d.levels| && q >= PrefixQuantity(d, step, k)
    ensures RoundingAfter(d, step, k, q) >= 0
  {
  }

  /** No quantity between two evaluated ones has a greater margin than the bound at the end
      that the slope points to. */
  lemma SegmentBound(d: Pair, step: nat, i: nat, j: nat, low: nat, q: nat, high: nat)
    requires ValidDepth(d.first) && ValidDepth(d.second) && step > 0
    requires InSegment(d, step, i, j, low) && InSegment(d, step, i, j, high) && low <= q <= high
    ensures InSegment(d, step, i, j, q) && Covered(d, step, q)
    ensures Margin(d, step, q) <= Upper(d, step, i, j, if Slope(d, i, j) >= 0 then high else low)
  {
    hide ExactMargin, Slope, Margin, Walk;
    UpperFromMargin(d, step, i, j, q,
        FeeCeilError(q - PrefixQuantity(d.first, step, i), FeeFactor(d.first.levels[i].price, d.first.fees.coefficient))
      + FeeCeilError(q - PrefixQuantity(d.second, step, j), FeeFactor(d.second.levels[j].price, d.second.fees.coefficient)));
    var e := if Slope(d, i, j) >= 0 then high else low;
    ExactMarginLinear(d, step, i, j, q, e);
    SameSign(e - q, Slope(d, i, j));
    DivMonotone(ExactMargin(d, step, i, j, q), ExactMargin(d, step, i, j, e), FEE_DENOMINATOR);
  }

  lemma SameSign(x: int, y: int)
    requires (x >= 0 && y >= 0) || (x <= 0 && y <= 0)
    ensures x * y >= 0
  {
  }

  // ------------------------------------------------------------------------
  // Machine range
  // ------------------------------------------------------------------------

  /** The slope, its terms and every product of a candidate's evaluation fit 64 bits. */
  lemma SearchFitsInt64(d: Pair, lim: SizingLimits, i: nat, j: nat, q: nat)
    requires ValidInput(d, lim) && i < |d.first.levels| && j < |d.second.levels| && q <= lim.cap
    ensures FitsInt64(FEE_DENOMINATOR * (10_000 - d.first.levels[i].price - d.second.levels[j].price))
    ensures FitsInt64(FEE_DENOMINATOR * (10_000 - d.first.levels[i].price - d.second.levels[j].price)
                      - FeeFactor(d.first.levels[i].price, d.first.fees.coefficient))
    ensures FitsInt64(Slope(d, i, j))
    ensures FitsInt64(q * 10_000)
    ensures FitsInt64(FeeFactor(d.first.levels[i].price, d.first.fees.coefficient))
    ensures FitsInt64(q * (FeeFactor(d.first.levels[i].price, d.first.fees.coefficient) % FEE_DENOMINATOR))
    ensures Covered(d, lim.step, q) && OnGrid(q, lim.step) && q > 0 ==>
      FitsInt64(Margin(d, lim.step, q)) && FitsInt64(PairReserve(d, lim.step, q))
    ensures OnGrid(q, lim.step) && q > 0 && InSegment(d, lim.step, i, j, q) ==>
      && FitsInt64(RoundingAfter(d.first, lim.step, i, q) + RoundingAfter(d.second, lim.step, j, q))
      && FitsInt64(Upper(d, lim.step, i, j, q))
      && PrefixFits(d.first, lim.step, i) && PrefixFits(d.second, lim.step, j)
    ensures 0 <= FeeCeilError(q, FeeFactor(d.first.levels[i].price, d.first.fees.coefficient))
                 + FeeCeilError(q, FeeFactor(d.second.levels[j].price, d.second.fees.coefficient)) <= UINT64_MAX
  {
    hide FeeFactor, Walk, LegOf, RoundingAfter, Upper, FeeCeilError, Margin, PairReserve, PrefixFits;
    CeilErrorByRemainder(q, FeeFactor(d.first.levels[i].price, d.first.fees.coefficient));
    CeilErrorByRemainder(q, FeeFactor(d.second.levels[j].price, d.second.fees.coefficient));
    if OnGrid(q, lim.step) && q > 0 && InSegment(d, lim.step, i, j, q) {
      SegmentFits(d, lim, i, j, q);
    }
    var f, f' := d.first.levels[i].price, d.second.levels[j].price;
    FeeFactorBounds(f, d.first.fees.coefficient);
    FeeFactorBounds(f', d.second.fees.coefficient);
    MulMonotone(q, QUANTITY_LIMIT, FeeFactor(f, d.first.fees.coefficient) % FEE_DENOMINATOR);
    if Covered(d, lim.step, q) && OnGrid(q, lim.step) && q > 0 {
      MarginFits(d, lim, q);
    }
  }

  /** The sums over the first k levels fit 64 bits. */
  predicate PrefixFits(d: BuyDepth, step: nat, k: nat)
    requires ValidFee(d.fees) && step > 0 && k <= |d.levels|
  {
    var l := PrefixLedger(d, step, k);
    FitsInt64(l.notional) && FitsInt64(l.cash) && l.rounding <= UINT64_MAX
  }

  lemma MarginFits(d: Pair, lim: SizingLimits, q: nat)
    requires ValidInput(d, lim) && q <= lim.cap && Covered(d, lim.step, q) && OnGrid(q, lim.step) && q > 0
    ensures -6_000_000_000_000 <= Margin(d, lim.step, q) <= 1_000_000_000_000
    ensures 0 <= PairReserve(d, lim.step, q) <= 6_000_000_000_000
  {
    hide Walk, LegOf;
    LegFits(d.first, lim.step, q);
    LegFits(d.second, lim.step, q);
  }

  lemma RoundingFits(d: BuyDepth, step: nat, k: nat, q: nat)
    requires ValidDepth(d) && (step == 1 || step == 100) && InLevel(d, step, k, q) && q <= QUANTITY_LIMIT
    ensures 0 <= RoundingAfter(d, step, k, q) <= 1_000_000_010_000 && PrefixFits(d, step, k)
    ensures 0 <= PrefixLedger(d, step, k).notional <= 1_000_000_000_000 && 0 <= PrefixLedger(d, step, k).cash <= 3_000_000_000_000
  {
    var l := PrefixLedger(d, step, k);
    var t := Trade(q - l.quantity, d.levels[k].price);
    PrefixBounds(d, step, k);
    PrefixNonNegative(d, step, k);
    LedgerAfter(l, t, d.fees);
    FillMeaning(true, t.quantity, t.price, d.fees, l.rounding);
    hide PrefixLedger, AddFill, Fill;
  }

  lemma {:induction false} PrefixNonNegative(d: BuyDepth, step: nat, k: nat)
    requires ValidFee(d.fees) && step > 0 && k <= |d.levels|
    ensures PrefixLedger(d, step, k).notional >= 0 && PrefixLedger(d, step, k).cash >= 0
    decreases k
  {
    hide Fill, AddFill, TradeFee;
    if k > 0 {
      var l, t := PrefixLedger(d, step, k - 1), Trade(LevelSize(d.levels[k - 1], step), d.levels[k - 1].price);
      PrefixNonNegative(d, step, k - 1);
      LedgerAfter(l, t, d.fees);
      FillMeaning(true, t.quantity, t.price, d.fees, l.rounding);
      FillAmountsOf(t, d.fees, l.rounding);
    }
  }

  lemma FillAmountsOf(t: Trade, fee: FeePolicy, acc: nat)
    requires ValidFee(fee)
    ensures Fill(true, t.quantity, t.price, fee, acc).notional == t.quantity * t.price >= 0
  {
  }

  /** Every value of an evaluation at q fits 64 bits. */
  lemma SegmentFits(d: Pair, lim: SizingLimits, i: nat, j: nat, q: nat)
    requires ValidInput(d, lim) && q <= lim.cap && OnGrid(q, lim.step) && q > 0 && InSegment(d, lim.step, i, j, q)
    ensures FitsInt64(RoundingAfter(d.first, lim.step, i, q) + RoundingAfter(d.second, lim.step, j, q))
    ensures FitsInt64(Upper(d, lim.step, i, j, q))
    ensures PrefixFits(d.first, lim.step, i) && PrefixFits(d.second, lim.step, j)
  {
    hide Walk, LegOf, RoundingAfter, Upper, FeeCeilError, Margin, PairReserve, PrefixFits, FeeFactor, PrefixLedger;
    RoundingFits(d.first, lim.step, i, q);
    RoundingFits(d.second, lim.step, j, q);
    var x, y := q - PrefixQuantity(d.first, lim.step, i), q - PrefixQuantity(d.second, lim.step, j);
    CeilErrorByRemainder(x, FeeFactor(d.first.levels[i].price, d.first.fees.coefficient));
    CeilErrorByRemainder(y, FeeFactor(d.second.levels[j].price, d.second.fees.coefficient));
    UpperFromMargin(d, lim.step, i, j, q,
                    FeeCeilError(x, FeeFactor(d.first.levels[i].price, d.first.fees.coefficient))
                    + FeeCeilError(y, FeeFactor(d.second.levels[j].price, d.second.fees.coefficient)));
    MarginFits(d, lim, q);
  }

  lemma LegFits(d: BuyDepth, step: nat, q: nat)
    requires ValidDepth(d) && OnGrid(q, step) && 0 < q <= QUANTITY_LIMIT && Acquire(d, step, q).Some?
    ensures 0 <= LegOf(d, step, q).debit <= LegOf(d, step, q).reservation <= 3_000_000_000_000
  {
    hide Walk, Reserve;
    DebitWithinQuote(d, step, q);
    ReservationExists(q, step, LegOf(d, step, q).limit, d.fees);
    WalkCostsAtLeast(d.levels, step, q, d.fees, OPENED, 0);
  }
}
