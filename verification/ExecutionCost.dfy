/** Exact trade costs (src/core/execution_cost.cpp): the fee of one fill, its rounding to
    the account's balance quantum and the per-order rebate of accumulated rounding. */
module ExecutionCost {
  import opened FixedPoint

  const FEE_DENOMINATOR := 10_000_000_000

  /** `coefficient` in parts per million, `quantum` in microdollars. */
  datatype FeePolicy = FeePolicy(coefficient: nat, quantum: nat)

  predicate ValidFee(fee: FeePolicy) {
    fee.coefficient <= 1_000_000 && (fee.quantum == 100 || fee.quantum == 10_000)
  }

  /** The rounding that one order has been charged and not yet been rebated. */
  class FeeAccumulator {
    var rounding: uint64

    constructor (rounding: uint64 := 0)
      ensures this.rounding == rounding
    {
      this.rounding := rounding;
    }
  }

  /** `change` is the debit of a buy or the credit of a sale. */
  datatype FillAmounts = FillAmounts(notional: int, tradeFee: int, roundingFee: int, rebate: int, change: int)

  // ------------------------------------------------------------------------
  // Rounded-up product
  // ------------------------------------------------------------------------

  /** b >> bit */
  function Shifted(b: nat, bit: nat): nat {
    if bit == 0 then b else Shifted(b, bit - 1) / 2
  }

  predicate BitSet(b: uint64, bit: nat) {
    Shifted(b as int, bit) % 2 == 1
  }

  /** The product of a and b >> bit, built from the top bit as the slow path does. */
  function Partial(a: nat, b: uint64, bit: nat): nat
    decreases 64 - bit
  {
    if bit >= 64 then 0 else 2 * Partial(a, b, bit + 1) + (if BitSet(b, bit) then a else 0)
  }

  lemma PartialStep(a: nat, b: uint64, bit: nat)
    requires bit < 64
    ensures Partial(a, b, bit) == 2 * Partial(a, b, bit + 1) + (if BitSet(b, bit) then a else 0)
  {
  }

  lemma NothingShiftedIn(a: nat, b: uint64)
    ensures Partial(a, b, 64) == 0
  {
  }

  lemma {:induction false} ShiftedBy8(b: nat, bit: nat)
    ensures Shifted(b, bit + 8) == Shifted(b, bit) / 256
  {
    assert Shifted(b, bit + 2) == Shifted(b, bit + 1) / 2;
    assert Shifted(b, bit + 4) == Shifted(b, bit + 3) / 2;
    assert Shifted(b, bit + 6) == Shifted(b, bit + 5) / 2;
    assert Shifted(b, bit + 7) == Shifted(b, bit + 6) / 2;
  }

  lemma {:induction false} SixtyFourBits(b: uint64)
    ensures Shifted(b as int, 64) == 0
  {
    ShiftedBy8(b as int, 0);
    ShiftedBy8(b as int, 8);
    ShiftedBy8(b as int, 16);
    ShiftedBy8(b as int, 24);
    ShiftedBy8(b as int, 32);
    ShiftedBy8(b as int, 40);
    ShiftedBy8(b as int, 48);
    ShiftedBy8(b as int, 56);
  }

  lemma DoubledProduct(a: nat, h: nat)
    ensures a * (2 * h) == 2 * (a * h) && a * (2 * h + 1) == 2 * (a * h) + a
  {
  }

  lemma {:induction false} PartialIsProduct(a: nat, b: uint64, bit: nat)
    requires bit <= 64
    ensures Partial(a, b, bit) == a * Shifted(b as int, bit)
    decreases 64 - bit
  {
    if bit == 64 {
      SixtyFourBits(b);
    } else {
      PartialIsProduct(a, b, bit + 1);
      DoubledProduct(a, Shifted(b as int, bit + 1));
    }
  }

  lemma {:induction false} ShiftedAtMost(b: nat, bit: nat)
    ensures Shifted(b, bit) <= b
  {
    if bit > 0 {
      ShiftedAtMost(b, bit - 1);
    }
  }

  lemma PartialAtMostProduct(a: nat, b: uint64, bit: nat)
    requires bit <= 64
    ensures Partial(a, b, bit) <= a * b as int
    ensures bit == 0 ==> Partial(a, b, bit) == a * b as int
  {
    PartialIsProduct(a, b, bit);
    ShiftedAtMost(b as int, bit);
    MulMonotone(Shifted(b as int, bit), b as int, a);
  }

  /** A partial quotient that is already too large makes the whole quotient too large. */
  lemma PartialTooLarge(a: nat, b: uint64, bit: nat, k: int)
    requires bit <= 64 && INT64_MAX < k && k * FEE_DENOMINATOR <= Partial(a, b, bit)
    ensures CeilDiv(a * b as int, FEE_DENOMINATOR) > INT64_MAX
  {
    PartialAtMostProduct(a, b, bit);
    CeilDivAtMost(a * b as int, FEE_DENOMINATOR, INT64_MAX);
  }

  /** ceil(a * b / 10^10) when that fits a signed 64-bit integer, and nothing otherwise. */
  method CeilProduct(a: uint64, b: uint64) returns (r: Option<uint64>)
    ensures r.Some? <==> CeilDiv(a as int * b as int, FEE_DENOMINATOR) <= INT64_MAX
    ensures r.Some? ==> r.value as int == CeilDiv(a as int * b as int, FEE_DENOMINATOR)
  {
    if b == 0 {
      return Some(0);
    }
    if a <= 0xffff_ffff_ffff_ffff / b {
      MulMonotone(a as int, 0xffff_ffff_ffff_ffff / b as int, b as int);
      var product := a * b;
      CeilDivOfFloor(product as int, FEE_DENOMINATOR);
      var result := product / 10_000_000_000 + (if product % 10_000_000_000 != 0 then 1 else 0);
      return if result <= 0x7fff_ffff_ffff_ffff then Some(result) else None;
    }
    r := CeilProductByBits(a, b);
  }

  /** The slow path divides while it multiplies, one bit of b at a time. */
  method CeilProductByBits(a: uint64, b: uint64) returns (r: Option<uint64>)
    ensures r.Some? <==> CeilDiv(a as int * b as int, FEE_DENOMINATOR) <= INT64_MAX
    ensures r.Some? ==> r.value as int == CeilDiv(a as int * b as int, FEE_DENOMINATOR)
  {
    hide Partial, BitSet, Shifted, CeilDiv;
    var denominator: uint64, maximum: uint64 := 10_000_000_000, 0x7fff_ffff_ffff_ffff;
    NothingShiftedIn(a as int, b);
    var quotient: uint64, remainder: uint64 := 0, 0;
    var bit := 63;
    while bit >= 0
      invariant -1 <= bit <= 63
      invariant quotient <= maximum && remainder < denominator
      invariant quotient as int * FEE_DENOMINATOR + remainder as int == Partial(a as int, b, bit + 1)
    {
      PartialStep(a as int, b, bit);
      if quotient > maximum / 2 {
        PartialTooLarge(a as int, b, bit, 2 * quotient as int);
        return None;
      }
      quotient := quotient * 2;
      remainder := remainder * 2;
      if BitSet(b, bit) {
        var add := a / denominator;
        if quotient > maximum - add {
          PartialTooLarge(a as int, b, bit, quotient as int + add as int);
          return None;
        }
        quotient := quotient + add;
        remainder := remainder + a % denominator;
      }
      var carry := remainder / denominator;
      if quotient > maximum - carry {
        PartialTooLarge(a as int, b, bit, quotient as int + carry as int);
        return None;
      }
      quotient := quotient + carry;
      remainder := remainder % denominator;
      bit := bit - 1;
    }
    PartialAtMostProduct(a as int, b, 0);
    CeilDivUnique(a as int * b as int, FEE_DENOMINATOR, quotient as int + if remainder != 0 then 1 else 0);
    if remainder != 0 {
      if quotient == maximum {
        return None;
      }
      quotient := quotient + 1;
    }
    return Some(quotient);
  }

  // ------------------------------------------------------------------------
  // One fill
  // ------------------------------------------------------------------------

  /** Trade fee numerator for one contract hundredth at price p. */
  function FeeFactor(p: Price, coefficient: nat): nat {
    MulMonotone(0, coefficient, p);
    MulMonotone(0, coefficient * p, PRICE_SCALE - p);
    coefficient * p * (PRICE_SCALE - p)
  }

  /** coefficient * contracts * price * (1 - price), rounded up to a microdollar. */
  function TradeFee(q: nat, p: Price, coefficient: nat): nat {
    CeilDiv(q * FeeFactor(p, coefficient), FEE_DENOMINATOR)
  }

  predicate ValidQuantum(quantum: nat) {
    quantum == 100 || quantum == 10_000
  }

  /** The greatest multiple of the balance quantum not above x. Both quanta are written as
      literals, which keeps every fact about alignment linear. */
  function AlignDown(x: int, quantum: nat): int
    requires ValidQuantum(quantum)
  {
    if quantum == 100 then x / 100 * 100 else x / 10_000 * 10_000
  }

  predicate Aligned(x: int, quantum: nat)
    requires ValidQuantum(quantum)
  {
    AlignDown(x, quantum) == x
  }

  lemma AlignDownMeaning(x: int, quantum: nat)
    requires ValidQuantum(quantum)
    ensures AlignDown(x, quantum) <= x < AlignDown(x, quantum) + quantum
    ensures Aligned(AlignDown(x, quantum), quantum)
    ensures x >= 0 ==> AlignDown(x, quantum) >= 0
  {
    if quantum == 100 {
      assert x / 100 * 100 / 100 == x / 100;
    } else {
      assert x / 10_000 * 10_000 / 10_000 == x / 10_000;
    }
  }

  lemma MultiplesOf(i: int, j: int, d: int)
    requires 0 < d
    ensures (i * d + j * d) / d * d == i * d + j * d
    ensures (i * d - j * d) / d * d == i * d - j * d
  {
    assert i * d + j * d == (i + j) * d && i * d - j * d == (i - j) * d;
    DivUnique((i + j) * d, d, i + j);
    DivUnique((i - j) * d, d, i - j);
  }

  lemma AlignedSum(x: int, y: int, quantum: nat)
    requires ValidQuantum(quantum) && Aligned(x, quantum) && Aligned(y, quantum)
    ensures Aligned(x + y, quantum) && Aligned(x - y, quantum)
  {
    if quantum == 100 {
      MultiplesOf(x / 100, y / 100, 100);
    } else {
      MultiplesOf(x / 10_000, y / 10_000, 10_000);
    }
  }

  /** The amounts of a fill from its notional and trade fee, with `acc` rounding outstanding:
      a debit is rounded up and a credit down to the quantum, and whole quanta of rounding
      are given back, as far as this fill's own fees allow. */
  function Amounts(buy: bool, notional: nat, tradeFee: nat, quantum: nat, acc: nat): FillAmounts
    requires ValidQuantum(quantum)
  {
    var total := if buy then notional + tradeFee else notional - tradeFee;
    var rounding := if buy then AlignDown(total + quantum - 1, quantum) - total else total - AlignDown(total, quantum);
    var rebate := AlignDown(Min(acc, tradeFee) + rounding, quantum);
    FillAmounts(notional, tradeFee, rounding, rebate,
                if buy then total + rounding - rebate else total - rounding + rebate)
  }

  /** The amounts of a fill of `q` at `p` when `acc` rounding is outstanding on the order. */
  function Fill(buy: bool, q: nat, p: Price, fee: FeePolicy, acc: nat): FillAmounts
    requires ValidFee(fee)
  {
    Amounts(buy, q * p, TradeFee(q, p, fee.coefficient), fee.quantum, acc)
  }

  /** The rounding outstanding after that fill. */
  function Outstanding(f: FillAmounts, acc: nat): int {
    acc + f.roundingFee - f.rebate
  }

  /** Every amount of the fill is representable. */
  predicate Fits(buy: bool, q: nat, p: Price, fee: FeePolicy, acc: nat) {
    && ValidFee(fee) && q > 0
    && var f := Fill(buy, q, p, fee, acc);
    && (if buy then f.notional + f.tradeFee + f.roundingFee else f.notional) <= INT64_MAX
    && acc + f.roundingFee <= UINT64_MAX
  }

  /** What a fill means, without its formulas: the cash change is a multiple of the balance
      quantum, a debit is at least and a credit at most the notional, the fee actually paid
      is never negative, and the rebate is the largest multiple of the quantum that the
      accumulated rounding and this fill's own fees allow. */
  lemma FillMeaning(buy: bool, q: nat, p: Price, fee: FeePolicy, acc: nat)
    requires ValidFee(fee)
    ensures var f := Fill(buy, q, p, fee, acc);
      && Aligned(f.change, fee.quantum)
      && 0 <= f.roundingFee < fee.quantum
      && Aligned(f.rebate, fee.quantum)
      && 0 <= f.rebate <= acc + f.roundingFee && f.rebate <= f.tradeFee + f.roundingFee
      && (acc + f.roundingFee < f.rebate + fee.quantum || f.tradeFee + f.roundingFee < f.rebate + fee.quantum)
      && f.change == (if buy then f.notional + (f.tradeFee + f.roundingFee - f.rebate)
                      else f.notional - (f.tradeFee + f.roundingFee - f.rebate))
      && (if buy then f.change >= f.notional else f.change <= f.notional)
  {
    AmountsMeaning(buy, q * p, TradeFee(q, p, fee.coefficient), fee.quantum, acc);
  }

  lemma AmountsMeaning(buy: bool, notional: nat, tradeFee: nat, quantum: nat, acc: nat)
    requires ValidQuantum(quantum)
    ensures var f := Amounts(buy, notional, tradeFee, quantum, acc);
      && f.notional == notional && f.tradeFee == tradeFee
      && Aligned(f.change, quantum)
      && 0 <= f.roundingFee < quantum
      && Aligned(f.rebate, quantum)
      && 0 <= f.rebate <= acc + f.roundingFee && f.rebate <= f.tradeFee + f.roundingFee
      && (acc + f.roundingFee < f.rebate + quantum || f.tradeFee + f.roundingFee < f.rebate + quantum)
      && f.change == (if buy then f.notional + (f.tradeFee + f.roundingFee - f.rebate)
                      else f.notional - (f.tradeFee + f.roundingFee - f.rebate))
      && (if buy then f.change >= f.notional else f.change <= f.notional)
  {
    hide AlignDown, Aligned;
    var f := Amounts(buy, notional, tradeFee, quantum, acc);
    var total := if buy then notional + tradeFee else notional - tradeFee;
    AlignDownMeaning(total, quantum);
    AlignDownMeaning(total + quantum - 1, quantum);
    AlignDownMeaning(Min(acc, tradeFee) + f.roundingFee, quantum);
    AlignedSum(if buy then total + f.roundingFee else total - f.roundingFee, f.rebate, quantum);
  }

  lemma FeeFactorBounds(p: Price, coefficient: nat)
    requires coefficient <= 1_000_000
    ensures FeeFactor(p, coefficient) <= FEE_DENOMINATOR * p
    ensures FeeFactor(p, coefficient) <= coefficient * 25_000_000 <= 25_000_000_000_000
    ensures coefficient * p <= 10_000_000_000
  {
    MulMonotone(coefficient, 1_000_000, p);
    MulMonotone(PRICE_SCALE - p, PRICE_SCALE, coefficient * p);
    assert (p - 5_000) * (p - 5_000) >= 0;
    assert p * (PRICE_SCALE - p) <= 25_000_000;
    MulMonotone(p * (PRICE_SCALE - p), 25_000_000, coefficient);
    assert coefficient * p * (PRICE_SCALE - p) == coefficient * (p * (PRICE_SCALE - p));
  }

  /** A sale's fee never exceeds its revenue. */
  lemma SellFeeWithinRevenue(q: nat, p: Price, fee: FeePolicy)
    requires ValidFee(fee)
    ensures TradeFee(q, p, fee.coefficient) <= q * p
  {
    FeeFactorBounds(p, fee.coefficient);
    MulMonotone(FeeFactor(p, fee.coefficient), FEE_DENOMINATOR * p, q);
    assert q * (FEE_DENOMINATOR * p) == (q * p) * FEE_DENOMINATOR;
    CeilDivAtMost(q * FeeFactor(p, fee.coefficient), FEE_DENOMINATOR, q * p);
  }

  lemma SellCreditNonNegative(q: nat, p: Price, fee: FeePolicy, acc: nat)
    requires ValidFee(fee)
    ensures Fill(false, q, p, fee, acc).change >= 0
  {
    SellFeeWithinRevenue(q, p, fee);
    AmountsMeaning(false, q * p, TradeFee(q, p, fee.coefficient), fee.quantum, acc);
  }

  /** The shared computation of a buy (`buy`) or sell fill. It succeeds exactly when every
      amount is representable; only then does the caller's accumulator change. The guard
      on a sale's fee is in the code, and never decides. */
  method FillOrder(buy: bool, quantity: Quantity, price: Price, policy: FeePolicy, accumulator: FeeAccumulator)
    returns (r: Option<FillAmounts>)
    modifies accumulator
    ensures r.Some? <==> Fits(buy, quantity, price, policy, old(accumulator.rounding) as int)
    ensures r.Some? ==>
      && r.value == Fill(buy, quantity, price, policy, old(accumulator.rounding) as int)
      && accumulator.rounding as int == Outstanding(r.value, old(accumulator.rounding) as int)
    ensures r.Some? ==>
      var f, n, acc := r.value, quantity * policy.coefficient * price * (10_000 - price), old(accumulator.rounding) as int;
      && f.notional == quantity * price && n <= f.tradeFee * 10_000_000_000 < n + 10_000_000_000
      && 0 <= f.roundingFee < policy.quantum && f.change % policy.quantum == 0 && f.rebate % policy.quantum == 0
      && 0 <= f.rebate <= Min(acc, f.tradeFee) + f.roundingFee < f.rebate + policy.quantum
      && f.change == (if buy then f.notional + f.tradeFee + f.roundingFee - f.rebate else f.notional - f.tradeFee - f.roundingFee + f.rebate)
      && accumulator.rounding as int == acc + f.roundingFee - f.rebate
    ensures r.None? ==> accumulator.rounding == old(accumulator.rounding)
  {
    var maximum: uint64 := 0x7fff_ffff_ffff_ffff;
    if (policy.quantum != 100 && policy.quantum != 10_000) || policy.coefficient > 1_000_000 || quantity == 0 {
      return None;
    }
    var q, p := quantity as uint64, price as uint64;
    SellFeeWithinRevenue(quantity, price, policy);
    NotionalGuard(quantity, price);
    if p != 0 && q > maximum / p {
      return None;
    }
    var notional := q * p;
    FeeFactorBounds(price, policy.coefficient);
    var factor := policy.coefficient as uint64 * p * (10_000 - p);
    var fee := CeilProduct(q, factor);
    if fee.None? {
      return None;
    }
    if buy {
      if notional > maximum - fee.value {
        return None;
      }
    } else {
      if fee.value > notional {
        return None;
      }
    }
    r := RoundFill(buy, notional, fee.value, policy.quantum, accumulator);
    FillSpelledOut(buy, quantity, price, policy, old(accumulator.rounding) as int);
  }

  /** The amounts of a fill without their formulas: they are determined by these. */
  lemma FillSpelledOut(buy: bool, q: nat, p: Price, fee: FeePolicy, acc: nat)
    requires ValidFee(fee)
    ensures var f, n := Fill(buy, q, p, fee, acc), q * fee.coefficient * p * (10_000 - p);
      && f.notional == q * p && n <= f.tradeFee * 10_000_000_000 < n + 10_000_000_000
      && 0 <= f.roundingFee < fee.quantum && f.change % fee.quantum == 0 && f.rebate % fee.quantum == 0
      && 0 <= f.rebate <= Min(acc, f.tradeFee) + f.roundingFee < f.rebate + fee.quantum
      && f.change == (if buy then f.notional + f.tradeFee + f.roundingFee - f.rebate else f.notional - f.tradeFee - f.roundingFee + f.rebate)
  {
    FillMeaning(buy, q, p, fee, acc);
    TradeFeeSpelledOut(q, p, fee.coefficient);
    var f := Fill(buy, q, p, fee, acc);
    AlignedMeaning(f.change, fee.quantum);
    AlignedMeaning(f.rebate, fee.quantum);
    hide TradeFee, AlignDown, Aligned;
  }

  lemma TradeFeeSpelledOut(q: nat, p: Price, coefficient: nat)
    ensures var n := q * coefficient * p * (10_000 - p); n <= TradeFee(q, p, coefficient) * 10_000_000_000 < n + 10_000_000_000
  {
    CeilDivBounds(q * FeeFactor(p, coefficient), FEE_DENOMINATOR);
    Regroup(q, coefficient, p, 10_000 - p);
    hide CeilDiv;
  }

  lemma Regroup(a: int, b: int, c: int, d: int)
    ensures a * (b * c * d) == a * b * c * d
  {
    assert a * (b * c) == a * b * c;
  }

  lemma AlignedMeaning(x: int, quantum: nat)
    requires ValidQuantum(quantum)
    ensures Aligned(x, quantum) <==> x % quantum == 0
  {
  }

  lemma NotionalGuard(q: nat, p: Price)
    ensures p != 0 ==> (q > INT64_MAX / p <==> q * p > INT64_MAX)
  {
    if p != 0 {
      var k := INT64_MAX / p;
      assert k * p <= INT64_MAX < k * p + p;
      assert (k + 1) * p == k * p + p;
      if q <= k {
        MulMonotone(q, k, p);
      } else {
        MulMonotone(k + 1, q, p);
      }
    }
  }

  /** The rounding and rebate half of a fill. */
  method RoundFill(buy: bool, notional: uint64, fee: uint64, wide: nat, accumulator: FeeAccumulator)
    returns (r: Option<FillAmounts>)
    requires ValidQuantum(wide)
    requires notional as int <= INT64_MAX
    requires if buy then notional as int + fee as int <= INT64_MAX else fee <= notional
    modifies accumulator
    ensures var f := Amounts(buy, notional as int, fee as int, wide, old(accumulator.rounding) as int);
      && (r.Some? <==> (buy ==> f.notional + f.tradeFee + f.roundingFee <= INT64_MAX)
                       && old(accumulator.rounding) as int + f.roundingFee <= UINT64_MAX)
      && (r.Some? ==> r.value == f && accumulator.rounding as int == Outstanding(f, old(accumulator.rounding) as int))
    ensures r.None? ==> accumulator.rounding == old(accumulator.rounding)
  {
    hide AlignDown, Aligned;
    var maximum: uint64 := 0x7fff_ffff_ffff_ffff;
    var quantum := wide as uint64;
    ghost var acc := accumulator.rounding as int;
    ghost var f := Amounts(buy, notional as int, fee as int, wide, acc);
    AmountsMeaning(buy, notional as int, fee as int, wide, acc);
    var total := if buy then notional + fee else notional - fee;
    AlignDownMeaning(total as int, wide);
    var rounding := RoundingOf(buy, total, quantum);
    if (buy && total > maximum - rounding) || accumulator.rounding > 0xffff_ffff_ffff_ffff - rounding {
      return None;
    }
    var accumulated := accumulator.rounding + rounding;
    var rebate := RebateOf(accumulated, fee + rounding, quantum);
    accumulator.rounding := accumulated - rebate;
    var change := if buy then total + rounding - rebate else total - rounding + rebate;
    return Some(FillAmounts(notional as int, fee as int, rounding as int, rebate as int, change as int));
  }

  method RoundingOf(buy: bool, total: uint64, quantum: uint64) returns (r: uint64)
    requires ValidQuantum(quantum as int)
    ensures r as int == if buy then AlignDown(total as int + quantum as int - 1, quantum as int) - total as int
                        else total as int - AlignDown(total as int, quantum as int)
  {
    assert total % quantum == if quantum == 100 then total % 100 else total % 10_000;
    return if buy then (quantum - total % quantum) % quantum else total % quantum;
  }

  method RebateOf(accumulated: uint64, fees: uint64, quantum: uint64) returns (r: uint64)
    requires ValidQuantum(quantum as int)
    ensures r as int == AlignDown(Min(accumulated as int, fees as int), quantum as int)
  {
    assert accumulated / quantum == if quantum == 100 then accumulated / 100 else accumulated / 10_000;
    assert fees / quantum == if quantum == 100 then fees / 100 else fees / 10_000;
    var units := if accumulated / quantum <= fees / quantum then accumulated / quantum else fees / quantum;
    return units * quantum;
  }

  method ChargeBuyFill(quantity: Quantity, price: Price, policy: FeePolicy, accumulator: FeeAccumulator)
    returns (r: Option<FillAmounts>)
    modifies accumulator
    ensures r.Some? <==> Fits(true, quantity, price, policy, old(accumulator.rounding) as int)
    ensures r.Some? ==>
      && r.value == Fill(true, quantity, price, policy, old(accumulator.rounding) as int)
      && accumulator.rounding as int == Outstanding(r.value, old(accumulator.rounding) as int)
    ensures r.Some? ==>
      var f, n, acc := r.value, quantity * policy.coefficient * price * (10_000 - price), old(accumulator.rounding) as int;
      && f.notional == quantity * price && n <= f.tradeFee * 10_000_000_000 < n + 10_000_000_000
      && 0 <= f.roundingFee < policy.quantum && f.change % policy.quantum == 0 && f.rebate % policy.quantum == 0
      && 0 <= f.rebate <= Min(acc, f.tradeFee) + f.roundingFee < f.rebate + policy.quantum
      && f.change == f.notional + f.tradeFee + f.roundingFee - f.rebate
      && accumulator.rounding as int == acc + f.roundingFee - f.rebate
    ensures r.None? ==> accumulator.rounding == old(accumulator.rounding)
  {
    r := FillOrder(true, quantity, price, policy, accumulator);
  }

  method CreditSellFill(quantity: Quantity, price: Price, policy: FeePolicy, accumulator: FeeAccumulator)
    returns (r: Option<FillAmounts>)
    modifies accumulator
    ensures r.Some? <==> Fits(false, quantity, price, policy, old(accumulator.rounding) as int)
    ensures r.Some? ==>
      && r.value == Fill(false, quantity, price, policy, old(accumulator.rounding) as int)
      && accumulator.rounding as int == Outstanding(r.value, old(accumulator.rounding) as int)
    ensures r.Some? ==>
      var f, n, acc := r.value, quantity * policy.coefficient * price * (10_000 - price), old(accumulator.rounding) as int;
      && f.notional == quantity * price && n <= f.tradeFee * 10_000_000_000 < n + 10_000_000_000
      && 0 <= f.roundingFee < policy.quantum && f.change % policy.quantum == 0 && f.rebate % policy.quantum == 0
      && 0 <= f.rebate <= Min(acc, f.tradeFee) + f.roundingFee < f.rebate + policy.quantum
      && f.change == f.notional - f.tradeFee - f.roundingFee + f.rebate
      && accumulator.rounding as int == acc + f.roundingFee - f.rebate
    ensures r.None? ==> accumulator.rounding == old(accumulator.rounding)
  {
    r := FillOrder(false, quantity, price, policy, accumulator);
  }
}
