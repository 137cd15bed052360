/** The reference cost of buying `q` from ascending price levels: start at the first level,
    take what each level offers on the quantity grid, one assumed fill per level, until `q`
    is filled (benchmarks/sizing_benchmarks.cpp:16-46 spells out the same walk). The fast
    cursors of net_sizing.cpp and basket_sizing.cpp are proved against it. */
module DepthWalk {
  import opened FixedPoint
  import opened ExecutionCost
  import opened Reservation

  datatype BuyLevel = BuyLevel(price: Price, quantity: Quantity)
  datatype BuyDepth = BuyDepth(levels: seq<BuyLevel>, fees: FeePolicy)
  datatype SizedLeg = SizedLeg(limit: Price, notional: int, debit: int, reservation: int)
  datatype SizingLimits = SizingLimits(cap: Quantity, step: Quantity, available: nat, minimumMargin: nat, maxEvaluations: nat)
  datatype SizingStatus =
    | Optimal | NoPositiveMargin | NoDepth | InsufficientCash | SearchBudgetExceeded | InvalidInput | ArithmeticError

  /** A completed walk: the order's ledger and the worst price it paid. */
  datatype Acquisition = Acquisition(ledger: Ledger, limit: Price)

  predicate Ascending(levels: seq<BuyLevel>) {
    forall i, j :: 0 <= i < j < |levels| ==> levels[i].price < levels[j].price
  }

  function LevelSize(level: BuyLevel, step: nat): nat
    requires step > 0
  {
    level.quantity / step * step
  }

  function Walk(levels: seq<BuyLevel>, step: nat, q: nat, fee: FeePolicy, l: Ledger): Option<Acquisition>
    requires ValidFee(fee) && step > 0
    decreases levels
  {
    if levels == [] then None
    else
      var level, size := levels[0], LevelSize(levels[0], step);
      if size == 0 then Walk(levels[1..], step, q, fee, l)
      else if q <= size then Some(Acquisition(AddFill(true, l, Trade(q, level.price), fee), level.price))
      else Walk(levels[1..], step, q - size, fee, AddFill(true, l, Trade(size, level.price), fee))
  }

  function Acquire(d: BuyDepth, step: nat, q: nat): Option<Acquisition>
    requires ValidFee(d.fees) && step > 0
  {
    Walk(d.levels, step, q, d.fees, OPENED)
  }

  /** The leg a sizing routine quotes for `q`. */
  function LegOf(d: BuyDepth, step: nat, q: nat): SizedLeg
    requires ValidFee(d.fees) && step > 0 && Acquire(d, step, q).Some?
  {
    var a := Acquire(d, step, q).value;
    SizedLeg(a.limit, a.ledger.notional, a.ledger.cash, Reserve(q, step, a.limit, d.fees))
  }

  // ------------------------------------------------------------------------
  // Prefixes of whole levels
  // ------------------------------------------------------------------------

  /** The order's ledger after taking all of the first k levels. */
  function PrefixLedger(d: BuyDepth, step: nat, k: nat): Ledger
    requires ValidFee(d.fees) && step > 0 && k <= |d.levels|
  {
    if k == 0 then OPENED
    else
      var l, size := PrefixLedger(d, step, k - 1), LevelSize(d.levels[k - 1], step);
      if size == 0 then l else AddFill(true, l, Trade(size, d.levels[k - 1].price), d.fees)
  }

  function PrefixQuantity(d: BuyDepth, step: nat, k: nat): nat
    requires ValidFee(d.fees) && step > 0 && k <= |d.levels|
  {
    PrefixLedger(d, step, k).quantity
  }

  /** A walk that goes beyond the first k levels passes through their prefix. */
  lemma {:induction false} WalkPassesPrefix(d: BuyDepth, step: nat, k: nat, q: nat)
    requires ValidFee(d.fees) && step > 0 && k <= |d.levels| && PrefixQuantity(d, step, k) < q
    ensures Acquire(d, step, q)
      == Walk(d.levels[k..], step, q - PrefixQuantity(d, step, k), d.fees, PrefixLedger(d, step, k))
  {
    if k == 0 {
      assert d.levels[0..] == d.levels;
    } else {
      PrefixStep(d, step, k - 1);
      WalkPassesPrefix(d, step, k - 1, q);
      var rest := d.levels[k - 1..];
      assert rest[0] == d.levels[k - 1] && rest[1..] == d.levels[k..];
    }
  }

  lemma PrefixStep(d: BuyDepth, step: nat, k: nat)
    requires ValidFee(d.fees) && step > 0 && k < |d.levels|
    ensures PrefixQuantity(d, step, k + 1) == PrefixQuantity(d, step, k) + LevelSize(d.levels[k], step)
  {
  }

  /** Inside level k the walk is the prefix plus one partial fill. */
  lemma WalkInLevel(d: BuyDepth, step: nat, k: nat, q: nat)
    requires ValidFee(d.fees) && step > 0 && k < |d.levels|
    requires PrefixQuantity(d, step, k) < q <= PrefixQuantity(d, step, k) + LevelSize(d.levels[k], step)
    ensures var l := PrefixLedger(d, step, k);
      Acquire(d, step, q)
      == Some(Acquisition(AddFill(true, l, Trade(q - l.quantity, d.levels[k].price), d.fees), d.levels[k].price))
  {
    hide AddFill;
    WalkPassesPrefix(d, step, k, q);
  }

  /** Beyond the whole depth there is no walk. */
  lemma WalkBeyondDepth(d: BuyDepth, step: nat, q: nat)
    requires ValidFee(d.fees) && step > 0 && PrefixQuantity(d, step, |d.levels|) < q
    ensures Acquire(d, step, q).None?
  {
    WalkPassesPrefix(d, step, |d.levels|, q);
  }

  lemma {:induction false} PrefixOnGrid(d: BuyDepth, step: nat, k: nat)
    requires ValidFee(d.fees) && step > 0 && k <= |d.levels|
    ensures PrefixQuantity(d, step, k) % step == 0
  {
    if k > 0 {
      PrefixOnGrid(d, step, k - 1);
      PrefixStep(d, step, k - 1);
      FloorToGrid(d.levels[k - 1].quantity, step);
      GridSum(PrefixQuantity(d, step, k - 1), LevelSize(d.levels[k - 1], step), step);
    }
  }

  // ------------------------------------------------------------------------
  // Monotone depth, limits and reservations
  // ------------------------------------------------------------------------

  /** Smaller orders are covered when larger ones are, at limits that are no worse. */
  lemma {:induction false} WalkMonotone(levels: seq<BuyLevel>, step: nat, q: nat, q': nat, fee: FeePolicy, l: Ledger, l': Ledger)
    requires ValidFee(fee) && step > 0 && q <= q' && Ascending(levels)
    ensures Walk(levels, step, q', fee, l').Some? ==>
      Walk(levels, step, q, fee, l).Some? && Walk(levels, step, q, fee, l).value.limit <= Walk(levels, step, q', fee, l').value.limit
    decreases levels
  {
    hide AddFill;
    if levels != [] {
      var size := LevelSize(levels[0], step);
      if size == 0 {
        WalkMonotone(levels[1..], step, q, q', fee, l, l');
      } else if size < q' {
        var m' := AddFill(true, l', Trade(size, levels[0].price), fee);
        if size < q {
          WalkMonotone(levels[1..], step, q - size, q' - size, fee, AddFill(true, l, Trade(size, levels[0].price), fee), m');
        } else {
          WalkLimit(levels[1..], step, q' - size, fee, m');
        }
      }
    }
  }

  /** The limit of a walk is the price of one of its levels. */
  lemma {:induction false} WalkLimit(levels: seq<BuyLevel>, step: nat, q: nat, fee: FeePolicy, l: Ledger)
    requires ValidFee(fee) && step > 0
    ensures Walk(levels, step, q, fee, l).Some? ==> exists i :: 0 <= i < |levels| && levels[i].price == Walk(levels, step, q, fee, l).value.limit
    decreases levels
  {
    hide AddFill;
    if levels != [] {
      var size := LevelSize(levels[0], step);
      if size == 0 {
        WalkLimit(levels[1..], step, q, fee, l);
      } else if size < q {
        WalkLimit(levels[1..], step, q - size, fee, AddFill(true, l, Trade(size, levels[0].price), fee));
      }
      assert forall i :: 0 <= i < |levels| - 1 ==> levels[1..][i] == levels[i + 1];
    }
  }

  lemma AcquireMonotone(d: BuyDepth, step: nat, q: nat, q': nat)
    requires ValidFee(d.fees) && step > 0 && q <= q' && Ascending(d.levels)
    requires Acquire(d, step, q').Some?
    ensures Acquire(d, step, q).Some?
    ensures LegOf(d, step, q).limit <= LegOf(d, step, q').limit
    ensures LegOf(d, step, q).reservation <= LegOf(d, step, q').reservation
  {
    hide Walk;
    WalkMonotone(d.levels, step, q, q', d.fees, OPENED, OPENED);
    ReserveMonotone(q, q', step, LegOf(d, step, q).limit, LegOf(d, step, q').limit, d.fees);
  }

  // ------------------------------------------------------------------------
  // Quoted debits stay within their reservations
  // ------------------------------------------------------------------------

  /** The number of fills of the first k levels. */
  function PrefixFills(d: BuyDepth, step: nat, k: nat): nat
    requires step > 0 && k <= |d.levels|
  {
    if k == 0 then 0 else PrefixFills(d, step, k - 1) + (if LevelSize(d.levels[k - 1], step) == 0 then 0 else 1)
  }

  lemma {:induction false} PrefixWithin(d: BuyDepth, step: nat, k: nat, limit: Price)
    requires ValidFee(d.fees) && step > 0 && k <= |d.levels|
    requires forall i :: 0 <= i < k ==> d.levels[i].price <= limit
    ensures WithinFills(PrefixLedger(d, step, k), PrefixFills(d, step, k), step, limit, d.fees)
    ensures Conserved(true, PrefixLedger(d, step, k), d.fees.quantum)
  {
    hide WithinFills, AddFill, Conserved;
    if k == 0 {
      OpenedWithin(step, limit, d.fees);
    } else {
      var l, size := PrefixLedger(d, step, k - 1), LevelSize(d.levels[k - 1], step);
      PrefixWithin(d, step, k - 1, limit);
      if size != 0 {
        var t := Trade(size, d.levels[k - 1].price);
        FloorToGrid(d.levels[k - 1].quantity, step);
        GridGap(0, size, step);
        FillWithin(l, PrefixFills(d, step, k - 1), t, step, limit, d.fees);
        AddFillConserves(true, l, t, d.fees);
      }
    }
  }

  lemma OpenedWithin(step: nat, limit: Price, fee: FeePolicy)
    requires ValidFee(fee)
    ensures WithinFills(OPENED, 0, step, limit, fee) && Conserved(true, OPENED, fee.quantum)
  {
  }

  /** A prefix of at most the supported quantity has small totals. */
  lemma PrefixBounds(d: BuyDepth, step: nat, k: nat)
    requires ValidFee(d.fees) && (step == 1 || step == 100) && k <= |d.levels|
    requires PrefixQuantity(d, step, k) <= QUANTITY_LIMIT
    ensures var l := PrefixLedger(d, step, k);
      && 0 <= l.rounding <= 1_000_000_000_000
      && l.notional <= 1_000_000_000_000
      && l.cash <= 3_000_000_000_000
      && Conserved(true, l, d.fees.quantum)
  {
    var l, n := PrefixLedger(d, step, k), PrefixFills(d, step, k);
    PrefixWithin(d, step, k, PRICE_SCALE);
    MulMonotone(n, QUANTITY_LIMIT, d.fees.quantum - 1) by {
      if step == 1 { } else { }
    }
    MulMonotone(d.fees.quantum - 1, 9_999, QUANTITY_LIMIT);
    PrefixOnGrid(d, step, k);
    WithinReservation(l, n, l.quantity, step, PRICE_SCALE, d.fees);
    ReservationExists(l.quantity, step, PRICE_SCALE, d.fees);
  }

  /** The level in which a walk ends. */
  lemma LevelReached(d: BuyDepth, step: nat, q: nat) returns (k: nat)
    requires ValidFee(d.fees) && step > 0 && 0 < q <= PrefixQuantity(d, step, |d.levels|)
    ensures k < |d.levels|
    ensures PrefixQuantity(d, step, k) < q <= PrefixQuantity(d, step, k) + LevelSize(d.levels[k], step)
  {
    hide Walk, LevelSize;
    k := 0;
    while k < |d.levels| && PrefixQuantity(d, step, k + 1) < q
      invariant k <= |d.levels| && PrefixQuantity(d, step, k) < q
    {
      k := k + 1;
    }
    PrefixStep(d, step, k);
  }

  /** A leg covers exactly the quantities up to its whole depth. */
  lemma CoverageIsDepth(d: BuyDepth, step: nat, q: nat)
    requires ValidFee(d.fees) && step > 0 && q > 0
    ensures Acquire(d, step, q).Some? <==> q <= PrefixQuantity(d, step, |d.levels|)
  {
    hide Walk, LevelSize, AddFill;
    if q > PrefixQuantity(d, step, |d.levels|) {
      WalkBeyondDepth(d, step, q);
    } else {
      var k := LevelReached(d, step, q);
      WalkInLevel(d, step, k, q);
    }
  }

  /** Every quoted leg: its debit is at most its reservation. */
  lemma DebitWithinQuote(d: BuyDepth, step: nat, q: nat)
    requires ValidFee(d.fees) && Ascending(d.levels) && OnGrid(q, step) && q > 0 && Acquire(d, step, q).Some?
    ensures LegOf(d, step, q).debit <= LegOf(d, step, q).reservation
  {
    hide WithinFills, AddFill, Conserved, Walk, Reserve;
    CoverageIsDepth(d, step, q);
    var k := LevelReached(d, step, q);
    var l, p, n := PrefixLedger(d, step, k), d.levels[k].price, PrefixFills(d, step, k);
    var t := Trade(q - l.quantity, p);
    PrefixWithin(d, step, k, p);
    PrefixOnGrid(d, step, k);
    GridGap(l.quantity, q, step);
    FillWithin(l, n, t, step, p, d.fees);
    AddFillConserves(true, l, t, d.fees);
    WalkInLevel(d, step, k, q);
    ConservedCash(AddFill(true, l, t, d.fees), d.fees.quantum);
    FillAddsQuantity(l, t, d.fees);
    WithinReservation(AddFill(true, l, t, d.fees), n + 1, q, step, p, d.fees);
  }

  // ------------------------------------------------------------------------
  // The walk in plain terms
  // ------------------------------------------------------------------------

  /** The fills of taking x_i at level i; nothing is a fill of nothing. */
  function FillsOf(levels: seq<BuyLevel>, xs: seq<nat>): seq<Trade>
    requires |xs| == |levels|
    decreases levels
  {
    if levels == [] then []
    else (if xs[0] == 0 then [] else [Trade(xs[0], levels[0].price)]) + FillsOf(levels[1..], xs[1..])
  }

  /** Taking x_i at level i: whole steps that the level offers, all of them before anything is
      taken from a later one. */
  ghost predicate Greedy(levels: seq<BuyLevel>, step: nat, xs: seq<nat>)
    requires step > 0
  {
    && |xs| == |levels|
    && (forall i :: 0 <= i < |xs| ==> xs[i] <= levels[i].quantity - levels[i].quantity % step)
    && (forall i, j :: 0 <= i < j < |xs| && xs[j] > 0 ==> xs[i] == levels[i].quantity - levels[i].quantity % step)
  }

  /** Level k is the last that anything is taken from. */
  ghost predicate LastTaken(xs: seq<nat>, k: nat) {
    k < |xs| && xs[k] > 0 && forall j :: k < j < |xs| ==> xs[j] == 0
  }

  /** What buying q costs is what its greedy fills cost, and its limit is the price of the last
      level that it takes from. */
  lemma AcquireIsGreedy(d: BuyDepth, step: nat, q: nat) returns (xs: seq<nat>, k: nat)
    requires ValidFee(d.fees) && step > 0 && q > 0 && Acquire(d, step, q).Some?
    ensures Greedy(d.levels, step, xs) && LastTaken(xs, k) && TotalQuantity(FillsOf(d.levels, xs)) == q
    ensures Acquire(d, step, q).value == Acquisition(AddFills(true, OPENED, FillsOf(d.levels, xs), d.fees), d.levels[k].price)
  {
    xs, k := WalkIsGreedy(d.levels, step, q, d.fees, OPENED);
  }

  lemma {:induction false} WalkIsGreedy(levels: seq<BuyLevel>, step: nat, q: nat, fee: FeePolicy, l: Ledger) returns (xs: seq<nat>, k: nat)
    requires ValidFee(fee) && step > 0 && q > 0 && Walk(levels, step, q, fee, l).Some?
    ensures k < |xs| == |levels| && Greedy(levels, step, xs) && LastTaken(xs, k) && TotalQuantity(FillsOf(levels, xs)) == q
    ensures Walk(levels, step, q, fee, l).value == Acquisition(AddFills(true, l, FillsOf(levels, xs), fee), levels[k].price)
    decreases levels
  {
    hide AddFill, Greedy, LastTaken, FillsOf, AddFills, TotalQuantity;
    var size := LevelSize(levels[0], step);
    WholeSteps(levels[0], step);
    if 0 < size && q <= size {
      xs, k := [q] + Zeros(|levels| - 1), 0;
      GreedyEnds(levels, step, q);
      assert |xs| == |levels|;
      OneFill(true, l, Trade(q, levels[0].price), fee);
    } else {
      var rest, j := WalkIsGreedy(levels[1..], step, q - size, fee, if size == 0 then l else AddFill(true, l, Trade(size, levels[0].price), fee));
      xs, k := [size] + rest, j + 1;
      GreedyGoesOn(levels, step, size, rest, j, l, fee);
    }
  }

  lemma WholeSteps(level: BuyLevel, step: nat)
    requires step > 0
    ensures LevelSize(level, step) == level.quantity - level.quantity % step
  {
    FloorToGrid(level.quantity, step);
  }

  lemma GreedyEnds(levels: seq<BuyLevel>, step: nat, q: nat)
    requires step > 0 && levels != [] && 0 < q <= levels[0].quantity - levels[0].quantity % step
    ensures var xs := [q] + Zeros(|levels| - 1);
      |xs| == |levels| && Greedy(levels, step, xs) && LastTaken(xs, 0) && FillsOf(levels, xs) == [Trade(q, levels[0].price)]
  {
    WholeNonNegative(levels, step);
    var xs := [q] + Zeros(|levels| - 1);
    assert FillsOf(levels, xs) == [Trade(q, levels[0].price)] by {
      NothingFilled(levels[1..]);
      assert xs[1..] == Zeros(|levels| - 1);
    }
  }

  lemma WholeNonNegative(levels: seq<BuyLevel>, step: nat)
    requires step > 0
    ensures forall i :: 0 <= i < |levels| ==> 0 <= levels[i].quantity - levels[i].quantity % step
  {
    forall i | 0 <= i < |levels| ensures 0 <= levels[i].quantity - levels[i].quantity % step {
      WholeSteps(levels[i], step);
    }
  }

  lemma GreedyGoesOn(levels: seq<BuyLevel>, step: nat, size: nat, rest: seq<nat>, j: nat, l: Ledger, fee: FeePolicy)
    requires ValidFee(fee) && step > 0 && levels != [] && size == levels[0].quantity - levels[0].quantity % step
    requires Greedy(levels[1..], step, rest) && LastTaken(rest, j)
    ensures var xs, t := [size] + rest, Trade(size, levels[0].price);
      && Greedy(levels, step, xs) && LastTaken(xs, j + 1)
      && TotalQuantity(FillsOf(levels, xs)) == size + TotalQuantity(FillsOf(levels[1..], rest))
      && AddFills(true, l, FillsOf(levels, xs), fee)
         == AddFills(true, if size == 0 then l else AddFill(true, l, t, fee), FillsOf(levels[1..], rest), fee)
  {
    hide AddFill;
    var xs, t := [size] + rest, Trade(size, levels[0].price);
    assert xs[1..] == rest;
    var fills := FillsOf(levels[1..], rest);
    assert FillsOf(levels, xs) == (if size == 0 then [] else [t]) + fills;
    assert ([t] + fills)[1..] == fills && [] + fills == fills;
    GreedyCons(levels, step, size, rest);
  }

  lemma GreedyCons(levels: seq<BuyLevel>, step: nat, size: nat, rest: seq<nat>)
    requires step > 0 && levels != [] && size == levels[0].quantity - levels[0].quantity % step && Greedy(levels[1..], step, rest)
    ensures Greedy(levels, step, [size] + rest)
  {
    var xs := [size] + rest;
    forall i | 0 <= i < |xs| ensures xs[i] <= levels[i].quantity - levels[i].quantity % step {
      if i > 0 {
        assert xs[i] == rest[i - 1] && levels[i] == levels[1..][i - 1];
      }
    }
    forall i, j | 0 <= i < j < |xs| && xs[j] > 0 ensures xs[i] == levels[i].quantity - levels[i].quantity % step {
      if i > 0 {
        assert xs[i] == rest[i - 1] && xs[j] == rest[j - 1] && levels[i] == levels[1..][i - 1];
      }
    }
  }

  function Zeros(n: nat): (xs: seq<nat>)
    ensures |xs| == n && forall i :: 0 <= i < n ==> xs[i] == 0
  {
    if n == 0 then [] else [0] + Zeros(n - 1)
  }

  lemma {:induction false} NothingFilled(levels: seq<BuyLevel>)
    ensures FillsOf(levels, Zeros(|levels|)) == []
    decreases levels
  {
    if levels != [] {
      NothingFilled(levels[1..]);
      assert Zeros(|levels|)[1..] == Zeros(|levels| - 1);
    }
  }

  lemma OneFill(buy: bool, l: Ledger, t: Trade, fee: FeePolicy)
    requires ValidFee(fee)
    ensures AddFills(buy, l, [t], fee) == AddFill(buy, l, t, fee) && TotalQuantity([t]) == t.quantity
  {
    hide AddFill;
    assert [t][1..] == [];
  }

  lemma ConservedCash(l: Ledger, quantum: nat)
    requires ValidQuantum(quantum) && Conserved(true, l, quantum)
    ensures l.cash == l.notional + l.fees + l.rounding
  {
  }

  lemma FillAddsQuantity(l: Ledger, t: Trade, fee: FeePolicy)
    requires ValidFee(fee)
    ensures AddFill(true, l, t, fee).quantity == l.quantity + t.quantity
  {
  }
}
