/** What a whole order costs: fills that share one rounding accumulator, and the funding
    bound `buy_reservation` (src/core/net_sizing.cpp:208-218) that no fragmentation of a buy
    order can exceed. */
module Reservation {
  import opened FixedPoint
  import opened ExecutionCost

  datatype Trade = Trade(quantity: nat, price: Price)

  /** Running totals of one order. `cash` is the sum of its debits or of its credits. */
  datatype Ledger = Ledger(quantity: nat, notional: int, fees: int, cash: int, rounding: nat)

  const OPENED := Ledger(0, 0, 0, 0, 0)

  function AddFill(buy: bool, l: Ledger, t: Trade, fee: FeePolicy): (l': Ledger)
    requires ValidFee(fee)
  {
    var f := Fill(buy, t.quantity, t.price, fee, l.rounding);
    FillMeaning(buy, t.quantity, t.price, fee, l.rounding);
    Ledger(l.quantity + t.quantity, l.notional + f.notional, l.fees + f.tradeFee, l.cash + f.change,
           Outstanding(f, l.rounding))
  }

  function AddFills(buy: bool, l: Ledger, trades: seq<Trade>, fee: FeePolicy): Ledger
    requires ValidFee(fee)
    decreases trades
  {
    if trades == [] then l
    else AddFills(buy, AddFill(buy, l, trades[0], fee), trades[1..], fee)
  }

  function TotalQuantity(trades: seq<Trade>): nat {
    if trades == [] then 0 else trades[0].quantity + TotalQuantity(trades[1..])
  }

  function TotalNotional(trades: seq<Trade>): nat {
    if trades == [] then 0 else trades[0].quantity * trades[0].price + TotalNotional(trades[1..])
  }

  function TotalFees(trades: seq<Trade>, coefficient: nat): nat {
    if trades == [] then 0
    else TradeFee(trades[0].quantity, trades[0].price, coefficient) + TotalFees(trades[1..], coefficient)
  }

  // ------------------------------------------------------------------------
  // The telescoping identity
  // ------------------------------------------------------------------------

  predicate Conserved(buy: bool, l: Ledger, quantum: nat)
    requires ValidQuantum(quantum)
  {
    && l.cash == (if buy then l.notional + l.fees + l.rounding else l.notional - l.fees - l.rounding)
    && Aligned(l.cash, quantum)
  }

  lemma AddFillConserves(buy: bool, l: Ledger, t: Trade, fee: FeePolicy)
    requires ValidFee(fee) && Conserved(buy, l, fee.quantum)
    ensures Conserved(buy, AddFill(buy, l, t, fee), fee.quantum)
  {
    hide AlignDown, Aligned, Fill;
    FillMeaning(buy, t.quantity, t.price, fee, l.rounding);
    AlignedSum(l.cash, Fill(buy, t.quantity, t.price, fee, l.rounding).change, fee.quantum);
    FillTotals(buy, t, fee, l.rounding);
  }

  lemma FillTotals(buy: bool, t: Trade, fee: FeePolicy, acc: nat)
    requires ValidFee(fee)
    ensures var f := Fill(buy, t.quantity, t.price, fee, acc);
      f.notional == t.quantity * t.price && f.tradeFee == TradeFee(t.quantity, t.price, fee.coefficient)
  {
  }

  lemma LedgerAfter(l: Ledger, t: Trade, fee: FeePolicy)
    requires ValidFee(fee)
    ensures var l', f := AddFill(true, l, t, fee), Fill(true, t.quantity, t.price, fee, l.rounding);
      l'.quantity == l.quantity + t.quantity && l'.notional == l.notional + f.notional
      && l'.cash == l.cash + f.change && l'.rounding == Outstanding(f, l.rounding)
  {
  }

  /** Over any fills of one order: the debits sum to the notionals, plus the rounded-up trade
      fees, plus the rounding still outstanding; dually the credits of a sale. The total is a
      whole number of balance quanta. */
  lemma {:induction false} OrderTotals(buy: bool, l: Ledger, trades: seq<Trade>, fee: FeePolicy)
    requires ValidFee(fee) && Conserved(buy, l, fee.quantum)
    ensures var e := AddFills(buy, l, trades, fee);
      && e.quantity == l.quantity + TotalQuantity(trades)
      && e.notional == l.notional + TotalNotional(trades)
      && e.fees == l.fees + TotalFees(trades, fee.coefficient)
      && Conserved(buy, e, fee.quantum)
    decreases trades
  {
    hide AlignDown, Aligned, Fill, TradeFee;
    if trades != [] {
      AddFillConserves(buy, l, trades[0], fee);
      FillTotals(buy, trades[0], fee, l.rounding);
      OrderTotals(buy, AddFill(buy, l, trades[0], fee), trades[1..], fee);
    }
  }

  /** Over one order: total debit = total notional + total trade fees + final accumulator. */
  lemma FreshOrderTotals(buy: bool, trades: seq<Trade>, fee: FeePolicy)
    requires ValidFee(fee)
    ensures var e := AddFills(buy, OPENED, trades, fee);
      && e.quantity == TotalQuantity(trades)
      && e.cash == (if buy then TotalNotional(trades) + TotalFees(trades, fee.coefficient) + e.rounding
                    else TotalNotional(trades) - TotalFees(trades, fee.coefficient) - e.rounding)
      && Aligned(e.cash, fee.quantum)
  {
    OrderTotals(buy, OPENED, trades, fee);
  }

  lemma {:induction false} AddFillsSplit(buy: bool, l: Ledger, a: seq<Trade>, b: seq<Trade>, fee: FeePolicy)
    requires ValidFee(fee)
    ensures AddFills(buy, l, a + b, fee) == AddFills(buy, AddFills(buy, l, a, fee), b, fee)
    decreases a
  {
    hide AddFill;
    if a == [] {
      assert a + b == b;
    } else {
      assert (a + b)[0] == a[0] && (a + b)[1..] == a[1..] + b;
      AddFillsSplit(buy, AddFill(buy, l, a[0], fee), a[1..], b, fee);
    }
  }

  // ------------------------------------------------------------------------
  // The reservation bound
  // ------------------------------------------------------------------------

  /** A conservative peak reserve for buying `q` at no more than `limit` on grid `step`. */
  function BuyReservation(q: Quantity, step: Quantity, limit: Price, fee: FeePolicy): Option<int> {
    if q > QUANTITY_LIMIT || (step != 1 && step != 100) || q % step != 0 || !ValidFee(fee) then None
    else if q == 0 then Some(0)
    else if !Fits(true, q, 5_000, fee, 0) then None
    else
      var peak := Fill(true, q, 5_000, fee, 0);
      Some(q * limit + peak.tradeFee + q / step * (fee.quantum + 1))
  }

  predicate OnGrid(q: int, step: int) {
    (step == 1 || step == 100) && 0 <= q && q % step == 0
  }

  /** The amount reserved when the order is within the supported bounds. */
  function Reserve(q: nat, step: nat, limit: Price, fee: FeePolicy): nat
    requires step > 0
  {
    hide TradeFee;
    MulMonotone(0, q, limit);
    MulMonotone(0, q / step, fee.quantum + 1);
    q * limit + TradeFee(q, 5_000, fee.coefficient) + q / step * (fee.quantum + 1)
  }

  /** At supported sizes the peak charge always fits, so a reservation always exists. */
  lemma ReservationExists(q: nat, step: nat, limit: Price, fee: FeePolicy)
    requires ValidFee(fee) && OnGrid(q, step) && q <= QUANTITY_LIMIT
    ensures BuyReservation(q, step, limit, fee) == Some(Reserve(q, step, limit, fee))
    ensures 0 <= Reserve(q, step, limit, fee) <= 3_000_000_000_000
  {
    FitsSmall(true, q, 5_000, fee, 0);
    PeakFeeBound(q, fee.coefficient);
    MulMonotone(q, QUANTITY_LIMIT, limit);
    MulMonotone(limit, PRICE_SCALE, QUANTITY_LIMIT);
    if step == 100 {
      MulMonotone(q / 100, QUANTITY_LIMIT, fee.quantum + 1);
    } else {
      MulMonotone(q / 1, QUANTITY_LIMIT, fee.quantum + 1);
    }
    MulMonotone(fee.quantum + 1, 10_001, QUANTITY_LIMIT);
    FillTotals(true, Trade(q, 5_000), fee, 0);
    assert q == 0 ==> Reserve(q, step, limit, fee) == 0;
  }

  /** The reservation in plain numbers: the limit price and the fee of one fill at 50 cents on the
      whole quantity, and a quantum and a microdollar for every fill that the grid allows. */
  lemma ReservationSpelledOut(q: Quantity, step: Quantity, limit: Price, fee: FeePolicy)
    ensures BuyReservation(q, step, limit, fee).Some? <==>
      && q <= 100_000_000 && (step == 1 || step == 100) && q % step == 0
      && fee.coefficient <= 1_000_000 && (fee.quantum == 100 || fee.quantum == 10_000)
    ensures BuyReservation(q, step, limit, fee).Some? ==>
      var peak, n := BuyReservation(q, step, limit, fee).value - q * limit - q / step * (fee.quantum + 1), q * fee.coefficient * 25_000_000;
      n <= peak * 10_000_000_000 < n + 10_000_000_000
  {
    if q <= 100_000_000 && (step == 1 || step == 100) && q % step == 0 && ValidFee(fee) {
      ReservationExists(q, step, limit, fee);
      FillSpelledOut(true, q, 5_000, fee, 0);
      FillTotals(true, Trade(q, 5_000), fee, 0);
      assert q * fee.coefficient * 5_000 * (10_000 - 5_000) == q * fee.coefficient * 25_000_000;
      hide Fill, TradeFee;
    }
  }

  lemma PeakFeeBound(q: nat, coefficient: nat)
    requires q <= QUANTITY_LIMIT && coefficient <= 1_000_000
    ensures TradeFee(q, 5_000, coefficient) <= 250_000_000_000
    ensures q == 0 ==> TradeFee(q, 5_000, coefficient) == 0
  {
    FeeFactorBounds(5_000, coefficient);
    MulMonotone(FeeFactor(5_000, coefficient), 25_000_000_000_000, q);
    CeilDivAtMost(q * FeeFactor(5_000, coefficient), FEE_DENOMINATOR, 250_000_000_000);
  }

  /** A fill of a supported size with less than 10^15 rounding outstanding is representable. */
  lemma FitsSmall(buy: bool, q: nat, p: Price, fee: FeePolicy, acc: nat)
    requires ValidFee(fee) && q <= QUANTITY_LIMIT && acc <= CASH_LIMIT
    ensures Fits(buy, q, p, fee, acc) <==> q > 0
    ensures Fill(buy, q, p, fee, acc).notional <= 1_000_000_000_000
    ensures 0 <= Fill(buy, q, p, fee, acc).tradeFee <= 1_000_000_000_000
  {
    hide Fill, TradeFee, AlignDown, Aligned;
    MulMonotone(q, QUANTITY_LIMIT, p);
    MulMonotone(p, PRICE_SCALE, QUANTITY_LIMIT);
    SellFeeWithinRevenue(q, p, fee);
    FillMeaning(buy, q, p, fee, acc);
    FillTotals(buy, Trade(q, p), fee, acc);
  }

  /** `l` is at most what `n` fills of a buy order at prices up to `limit` can reach. */
  predicate WithinFills(l: Ledger, n: nat, step: nat, limit: Price, fee: FeePolicy) {
    && n * step <= l.quantity
    && l.notional <= l.quantity * limit
    && l.fees * FEE_DENOMINATOR <= l.quantity * FeeFactor(5_000, fee.coefficient) + n * FEE_DENOMINATOR
    && l.rounding <= n * (fee.quantum - 1)
  }

  lemma FillWithin(l: Ledger, n: nat, t: Trade, step: nat, limit: Price, fee: FeePolicy)
    requires ValidFee(fee) && WithinFills(l, n, step, limit, fee)
    requires step <= t.quantity && t.price <= limit
    ensures WithinFills(AddFill(true, l, t, fee), n + 1, step, limit, fee)
  {
    hide Fill, AlignDown, Aligned, FeeFactor;
    var q, p, peak := t.quantity, t.price, FeeFactor(5_000, fee.coefficient);
    FillMeaning(true, q, p, fee, l.rounding);
    FillTotals(true, t, fee, l.rounding);
    PeakFactor(p, fee.coefficient);
    MulMonotone(FeeFactor(p, fee.coefficient), peak, q);
    CeilDivBounds(q * FeeFactor(p, fee.coefficient), FEE_DENOMINATOR);
    MulMonotone(p, limit, q);
    Distribute(l.quantity, q, limit);
    Distribute(l.quantity, q, peak);
    Distribute(n, 1, step);
    Distribute(n, 1, fee.quantum - 1);
  }

  /** The fee is largest at half a dollar. */
  lemma PeakFactor(p: Price, coefficient: nat)
    ensures FeeFactor(p, coefficient) <= FeeFactor(5_000, coefficient)
  {
    assert (p - 5_000) * (p - 5_000) >= 0;
    assert p * (PRICE_SCALE - p) <= 25_000_000;
    MulMonotone(p * (PRICE_SCALE - p), 25_000_000, coefficient);
    assert coefficient * p * (PRICE_SCALE - p) == coefficient * (p * (PRICE_SCALE - p));
  }

  /** Every trade is a positive step multiple at no more than the limit. */
  predicate Fragments(trades: seq<Trade>, step: nat, limit: Price) {
    forall i :: 0 <= i < |trades| ==> OnGrid(trades[i].quantity, step) && trades[i].quantity > 0 && trades[i].price <= limit
  }

  lemma {:induction false} FillsWithin(l: Ledger, n: nat, trades: seq<Trade>, step: nat, limit: Price, fee: FeePolicy)
    requires ValidFee(fee) && WithinFills(l, n, step, limit, fee) && Fragments(trades, step, limit)
    ensures WithinFills(AddFills(true, l, trades, fee), n + |trades|, step, limit, fee)
    decreases trades
  {
    hide AddFill, WithinFills;
    if trades != [] {
      var t := trades[0];
      GridGap(0, t.quantity, step);
      FillWithin(l, n, t, step, limit, fee);
      FillsWithin(AddFill(true, l, t, fee), n + 1, trades[1..], step, limit, fee);
    }
  }

  /** The funding theorem: however a buy of at most `q` is fragmented into step multiples at
      prices no worse than the limit, its debit does not exceed the reservation for `q`. */
  lemma DebitWithinReservation(trades: seq<Trade>, q: nat, step: nat, limit: Price, fee: FeePolicy)
    requires ValidFee(fee) && OnGrid(q, step) && Fragments(trades, step, limit)
    requires TotalQuantity(trades) <= q
    ensures AddFills(true, OPENED, trades, fee).cash <= Reserve(q, step, limit, fee)
  {
    FillsWithin(OPENED, 0, trades, step, limit, fee);
    OrderTotals(true, OPENED, trades, fee);
    WithinReservation(AddFills(true, OPENED, trades, fee), |trades|, q, step, limit, fee);
  }

  lemma WithinReservation(l: Ledger, n: nat, q: nat, step: nat, limit: Price, fee: FeePolicy)
    requires ValidFee(fee) && OnGrid(q, step) && l.quantity <= q
    requires WithinFills(l, n, step, limit, fee) && l.cash == l.notional + l.fees + l.rounding
    ensures l.cash <= Reserve(q, step, limit, fee)
  {
    var peak := FeeFactor(5_000, fee.coefficient);
    MulMonotone(l.quantity, q, limit);
    MulMonotone(l.quantity, q, peak);
    CeilDivBounds(q * peak, FEE_DENOMINATOR);
    assert l.fees <= TradeFee(q, 5_000, fee.coefficient) + n by {
      hide FeeFactor;
      assert (l.fees - n) * FEE_DENOMINATOR <= q * peak;
      assert q * peak <= TradeFee(q, 5_000, fee.coefficient) * FEE_DENOMINATOR;
    }
    assert n <= q / step by {
      if step == 1 { } else { }
    }
    MulMonotone(n, q / step, fee.quantum);
    assert n + n * (fee.quantum - 1) == n * fee.quantum;
    assert q / step * (fee.quantum + 1) == q / step * fee.quantum + q / step;
  }

  /** Reservations grow with the order's size and with its limit. */
  lemma ReserveMonotone(q: nat, q': nat, step: nat, limit: Price, limit': Price, fee: FeePolicy)
    requires step > 0 && q <= q' && limit <= limit'
    ensures Reserve(q, step, limit, fee) <= Reserve(q', step, limit', fee)
  {
    MulMonotone(q, q', limit);
    MulMonotone(limit, limit', q');
    MulMonotone(q, q', FeeFactor(5_000, fee.coefficient));
    CeilDivMonotone(q * FeeFactor(5_000, fee.coefficient), q' * FeeFactor(5_000, fee.coefficient), FEE_DENOMINATOR);
    DivMonotone(q, q', step);
    MulMonotone(q / step, q' / step, fee.quantum + 1);
  }
}
