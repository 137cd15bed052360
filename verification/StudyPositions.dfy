/** Positions of a simulated account (src/session/study_positions.hpp): per-attempt lots in one
    index-linked vector, closed first in first out, and the exact time integral of paid cost. */
module StudyPositions {
  import opened FixedPoint
  import opened LotAccounting
  import opened Contracts

  const NANOSECONDS := 1_000_000_000

  datatype Settlement = Settlement(marketId: nat, yesWins: bool, time: int)

  datatype Position = Position(leg: PayoffLeg, quantity: nat, head: Option<nat>, tail: Option<nat>)

  /** A position without its links: the leg it was bought on and its open lots, oldest first. */
  datatype Stock = Stock(leg: PayoffLeg, lots: seq<Holding>)

  /** The guards of the source that throw. */
  datatype PositionFault =
    | AcquisitionBound | UnownedPosition | LotAccountingFault | CostRemainder
    | NegativeCapitalTime | CapitalTimeOverflow | SettledQuantityOverflow | SettlementPayoutBound

  // ------------------------------------------------------------------------
  // Capital time
  // ------------------------------------------------------------------------

  /** An exact base-10^9 accumulator of paid microdollars times nanoseconds. */
  class CapitalTime {
    var seconds: uint64
    var fraction: uint64

    constructor ()
      ensures Value() == 0 && Valid()
    {
      seconds, fraction := 0, 0;
    }

    ghost predicate Valid()
      reads this
    {
      fraction < 1_000_000_000
    }

    ghost function Value(): int
      reads this
    {
      seconds as int * NANOSECONDS + fraction as int
    }

    lemma WithinBound()
      requires Valid()
      ensures !Overflows(Value())
    {
      DivUnique(Value(), NANOSECONDS, seconds as int);
    }

    /** Adds cash * nanoseconds exactly, or fails when an input is negative or the whole
        seconds no longer fit 64 bits. No intermediate exceeds 64 bits. */
    method Add(cash: int, nanoseconds: int) returns (fault: Option<PositionFault>)
      requires Valid() && FitsInt64(cash) && FitsInt64(nanoseconds)
      modifies this
      ensures Valid()
      ensures fault == (if cash < 0 || nanoseconds < 0 then Some(NegativeCapitalTime)
                        else if Overflows(old(Value()) + cash * nanoseconds) then Some(CapitalTimeOverflow)
                        else None)
      ensures Value() == if fault.None? then old(Value()) + cash * nanoseconds else old(Value())
    {
      if cash < 0 || nanoseconds < 0 {
        return Some(NegativeCapitalTime);
      }
      var scale: uint64, maximum: uint64 := 1_000_000_000, 0xffff_ffff_ffff_ffff;
      var amount, time := cash as uint64, nanoseconds as uint64;
      var secs, ns := time / scale, time % scale;
      SplitProduct(cash, nanoseconds);
      ProductGuard(cash, nanoseconds / NANOSECONDS);
      if secs != 0 && amount > maximum / secs {
        return Some(CapitalTimeOverflow);
      }
      var whole := amount * secs;
      var fractional := (amount % scale) * ns + fraction;
      var extra := (amount / scale) * ns + fractional / scale;
      if whole > maximum - extra || seconds > maximum - whole - extra {
        return Some(CapitalTimeOverflow);
      }
      seconds := seconds + (whole + extra);
      fraction := fractional % scale;
      return None;
    }
  }

  /** The whole seconds of the integral no longer fit 64 bits. */
  predicate Overflows(value: int) {
    value / NANOSECONDS > UINT64_MAX
  }

  lemma OverflowMonotone(value: int, more: int)
    requires value <= more
    ensures Overflows(value) ==> Overflows(more)
  {
    DivMonotone(value, more, NANOSECONDS);
  }

  lemma SplitProduct(cash: nat, ns: nat)
    requires FitsInt64(cash) && FitsInt64(ns)
    ensures var coarse, fine := cash / NANOSECONDS * (ns % NANOSECONDS), cash % NANOSECONDS * (ns % NANOSECONDS);
      && cash * ns == (cash * (ns / NANOSECONDS) + coarse) * NANOSECONDS + fine
      && 0 <= coarse <= 9_300_000_000_000_000_000
      && 0 <= fine <= 1_000_000_000_000_000_000
    ensures cash * (ns / NANOSECONDS) >= 0
  {
    var k, r := ns / NANOSECONDS, ns % NANOSECONDS;
    var a, b := cash / NANOSECONDS, cash % NANOSECONDS;
    assert cash * (k * NANOSECONDS + r) == (cash * k) * NANOSECONDS + cash * r;
    assert (a * NANOSECONDS + b) * r == (a * r) * NANOSECONDS + b * r;
    MulMonotone(a, 9_300_000_000, r);
    MulMonotone(r, NANOSECONDS, 9_300_000_000);
    MulMonotone(b, NANOSECONDS, r);
    MulMonotone(r, NANOSECONDS, NANOSECONDS);
  }

  lemma ProductGuard(a: nat, b: nat)
    ensures b != 0 ==> (a > UINT64_MAX / b <==> a * b > UINT64_MAX)
  {
    if b != 0 {
      var k := UINT64_MAX / b;
      assert k * b <= UINT64_MAX < k * b + b;
      assert (k + 1) * b == k * b + b;
      if a <= k {
        MulMonotone(a, k, b);
      } else {
        MulMonotone(k + 1, a, b);
      }
    }
  }

  // ------------------------------------------------------------------------
  // Chains of lots
  // ------------------------------------------------------------------------

  /** `chain` lists the lots reached from `head`, in order; links only go forward, so a chain
      is acyclic, and every linked lot is open. */
  predicate Linked(chain: seq<nat>, lots: seq<Lot>, head: Option<nat>) {
    if chain == [] then head == None
    else
      && head == Some(chain[0]) && chain[0] < |lots| && lots[chain[0]].quantity > 0
      && (forall i :: 0 < i < |chain| ==> chain[0] < chain[i])
      && Linked(chain[1..], lots, lots[chain[0]].next)
  }

  predicate InRange(chain: seq<nat>, lots: seq<Lot>) {
    forall i :: 0 <= i < |chain| ==> chain[i] < |lots|
  }

  predicate Ends(chain: seq<nat>, tail: Option<nat>) {
    tail == if chain == [] then None else Some(chain[|chain| - 1])
  }

  /** What the lots of a chain hold, in order. */
  function Held(chain: seq<nat>, lots: seq<Lot>): seq<Holding> {
    if chain == [] then []
    else if chain[0] >= |lots| then Held(chain[1..], lots)
    else
      var l := lots[chain[0]];
      [Holding(l.quantity, l.debit, l.acquired)] + Held(chain[1..], lots)
  }

  predicate Chained(chain: seq<nat>, lots: seq<Lot>, p: Position) {
    && InRange(chain, lots) && Linked(chain, lots, p.head) && Ends(chain, p.tail)
    && HeldQuantity(Held(chain, lots)) == p.quantity <= QUANTITY_LIMIT
  }

  predicate Disjoint(a: seq<nat>, b: seq<nat>) {
    forall i, j :: 0 <= i < |a| && 0 <= j < |b| ==> a[i] != b[j]
  }

  lemma {:induction false} LinkedInRange(chain: seq<nat>, lots: seq<Lot>, head: Option<nat>)
    requires Linked(chain, lots, head)
    ensures InRange(chain, lots)
    ensures forall i, j :: 0 <= i < j < |chain| ==> chain[i] < chain[j]
    ensures Open(Held(chain, lots))
    decreases chain
  {
    if chain != [] {
      LinkedInRange(chain[1..], lots, lots[chain[0]].next);
      forall i, j | 0 <= i < j < |chain| ensures chain[i] < chain[j] {
        if i > 0 {
          assert chain[1..][i - 1] < chain[1..][j - 1];
        }
      }
    }
  }

  /** A chain does not notice changes to other lots. */
  lemma {:induction false} ChainFrame(chain: seq<nat>, lots: seq<Lot>, lots': seq<Lot>, head: Option<nat>)
    requires |lots| <= |lots'| && InRange(chain, lots) && forall i :: 0 <= i < |chain| ==> lots'[chain[i]] == lots[chain[i]]
    ensures Linked(chain, lots', head) == Linked(chain, lots, head)
    ensures Held(chain, lots') == Held(chain, lots)
    decreases chain
  {
    if chain != [] {
      ChainFrame(chain[1..], lots, lots', lots[chain[0]].next);
    }
  }

  /** The lots after linking `lot` behind the tail of a chain. */
  function Appended(chain: seq<nat>, lots: seq<Lot>, lot: Lot): seq<Lot>
    requires InRange(chain, lots)
  {
    (if chain == [] then lots
     else lots[chain[|chain| - 1] := lots[chain[|chain| - 1]].(next := Some(|lots|))]) + [lot]
  }

  lemma AppendedTail(chain: seq<nat>, lots: seq<Lot>, head: Option<nat>, lot: Lot)
    requires chain != [] && Linked(chain, lots, head) && InRange(chain, lots)
    ensures var lots' := Appended(chain, lots, lot);
      && |lots'| == |lots| + 1 && lots'[|lots|] == lot
      && (|chain| > 1 ==> lots'[chain[0]] == lots[chain[0]] && Appended(chain[1..], lots, lot) == lots')
      && (|chain| == 1 ==> lots'[chain[0]] == lots[chain[0]].(next := Some(|lots|)))
  {
    LinkedInRange(chain, lots, head);
  }

  /** A chain with one more lot in front. */
  lemma ConsLinked(c: nat, rest: seq<nat>, lots: seq<Lot>)
    requires c < |lots| && lots[c].quantity > 0 && InRange(rest, lots) && (forall i :: 0 <= i < |rest| ==> c < rest[i])
    requires Linked(rest, lots, lots[c].next)
    ensures Linked([c] + rest, lots, Some(c)) && InRange([c] + rest, lots)
    ensures Held([c] + rest, lots) == [Holding(lots[c].quantity, lots[c].debit, lots[c].acquired)] + Held(rest, lots)
  {
    assert ([c] + rest)[1..] == rest;
  }

  lemma UnconsLinked(chain: seq<nat>, lots: seq<Lot>, head: Option<nat>)
    requires Linked(chain, lots, head) && InRange(chain, lots)
    ensures chain == [] <==> head == None
    ensures chain != [] ==>
      && head == Some(chain[0]) && lots[chain[0]].quantity > 0 && (forall i :: 0 < i < |chain| ==> chain[0] < chain[i])
      && Linked(chain[1..], lots, lots[chain[0]].next)
      && Held(chain, lots) == [Holding(lots[chain[0]].quantity, lots[chain[0]].debit, lots[chain[0]].acquired)] + Held(chain[1..], lots)
    ensures chain == [] ==> Held(chain, lots) == []
  {
  }

  lemma {:induction false} ChainAppend(chain: seq<nat>, lots: seq<Lot>, head: Option<nat>, lot: Lot)
    requires Linked(chain, lots, head) && InRange(chain, lots) && lot.quantity > 0 && lot.next == None
    ensures var lots', n := Appended(chain, lots, lot), |lots|;
      && InRange(chain + [n], lots')
      && Linked(chain + [n], lots', if chain == [] then Some(n) else head)
      && Held(chain + [n], lots') == Held(chain, lots) + [Holding(lot.quantity, lot.debit, lot.acquired)]
    decreases chain
  {
    var n, lots' := |lots|, Appended(chain, lots, lot);
    UnconsLinked(chain, lots, head);
    if chain == [] {
      ConsLinked(n, [], lots');
      assert [n] + [] == chain + [n];
    } else {
      AppendedTail(chain, lots, head, lot);
      var rest := chain[1..];
      if rest == [] {
        ConsLinked(n, [], lots');
        assert [n] + [] == rest + [n];
      } else {
        ChainAppend(rest, lots, lots[chain[0]].next, lot);
      }
      hide Linked, Held, Appended;
      assert rest + [n] == chain[1..] + [n];
      ConsLinked(chain[0], rest + [n], lots');
      assert [chain[0]] + (rest + [n]) == chain + [n];
    }
  }

  lemma {:induction false} HeldAppend(h: seq<Holding>, x: Holding)
    ensures HeldQuantity(h + [x]) == HeldQuantity(h) + x.quantity
    ensures HeldDebit(h + [x]) == HeldDebit(h) + x.debit
  {
    if h == [] {
      assert h + [x] == [x];
    } else {
      assert (h + [x])[1..] == h[1..] + [x];
      HeldAppend(h[1..], x);
    }
  }

  /** Positions without their links. */
  function StocksOf(positions: seq<Position>, chains: seq<seq<nat>>, lots: seq<Lot>): (s: seq<Stock>)
    ensures |s| == |positions|
  {
    seq(|positions|, p requires 0 <= p < |positions| => Stock(positions[p].leg, if p < |chains| then Held(chains[p], lots) else []))
  }

  lemma StocksReplaced(positions: seq<Position>, chains: seq<seq<nat>>, lots: seq<Lot>, p: nat, position: Position, chain: seq<nat>, lots': seq<Lot>)
    requires p < |positions| == |chains|
    requires forall p' :: 0 <= p' < |positions| && p' != p ==> Held(chains[p'], lots') == Held(chains[p'], lots)
    ensures StocksOf(positions, chains, lots)[p] == Stock(positions[p].leg, Held(chains[p], lots))
    ensures StocksOf(positions[p := position], chains[p := chain], lots')
      == StocksOf(positions, chains, lots)[p := Stock(position.leg, Held(chain, lots'))]
  {
    hide Held;
  }

  // ------------------------------------------------------------------------
  // Sums over all lots
  // ------------------------------------------------------------------------

  function TotalDebit(lots: seq<Lot>): nat {
    if lots == [] then 0 else lots[0].debit + TotalDebit(lots[1..])
  }

  /** Cost still held, weighted with its age at `time`. */
  function CostTime(lots: seq<Lot>, time: int): int {
    if lots == [] then 0 else lots[0].debit * (time - lots[0].acquired) + CostTime(lots[1..], time)
  }

  lemma {:induction false} SumsUpdate(lots: seq<Lot>, i: nat, lot: Lot, time: int)
    requires i < |lots|
    ensures TotalDebit(lots[i := lot]) == TotalDebit(lots) - lots[i].debit + lot.debit
    ensures CostTime(lots[i := lot], time)
      == CostTime(lots, time) - lots[i].debit * (time - lots[i].acquired) + lot.debit * (time - lot.acquired)
  {
    if i == 0 {
      assert lots[0 := lot][1..] == lots[1..];
    } else {
      assert lots[i := lot][1..] == lots[1..][i - 1 := lot];
      SumsUpdate(lots[1..], i - 1, lot, time);
    }
  }

  lemma {:induction false} SumsAppend(lots: seq<Lot>, lot: Lot, time: int)
    ensures TotalDebit(lots + [lot]) == TotalDebit(lots) + lot.debit
    ensures CostTime(lots + [lot], time) == CostTime(lots, time) + lot.debit * (time - lot.acquired)
  {
    if lots == [] {
      assert lots + [lot] == [lot];
    } else {
      assert (lots + [lot])[1..] == lots[1..] + [lot];
      SumsAppend(lots[1..], lot, time);
    }
  }

  /** Between operations every held microdollar ages alike. */
  lemma {:induction false} CostTimeGrows(lots: seq<Lot>, time: int, time': int)
    ensures CostTime(lots, time') == CostTime(lots, time) + (time' - time) * TotalDebit(lots)
  {
    if lots != [] {
      CostTimeGrows(lots[1..], time, time');
      var d, a := lots[0].debit, lots[0].acquired;
      assert d * (time' - a) == d * (time - a) + (time' - time) * d;
      assert (time' - time) * (d + TotalDebit(lots[1..])) == (time' - time) * d + (time' - time) * TotalDebit(lots[1..]);
    }
  }

  lemma CostTimeEmpty(time: int)
    ensures CostTime([], time) == 0
  {
  }

  lemma {:induction false} CostTimePrefix(lots: seq<Lot>, i: nat, time: int)
    requires i <= |lots| && AcquiredBy(lots, time)
    ensures CostTime(lots[..i], time) <= CostTime(lots, time)
    decreases |lots| - i
  {
    if i == |lots| {
      assert lots[..i] == lots;
    } else {
      assert lots[..i + 1] == lots[..i] + [lots[i]];
      SumsAppend(lots[..i], lots[i], time);
      MulMonotone(0, time - lots[i].acquired, lots[i].debit);
      CostTimePrefix(lots, i + 1, time);
    }
  }

  /** Every lot was acquired by `time`. */
  predicate AcquiredBy(lots: seq<Lot>, time: int) {
    forall i :: 0 <= i < |lots| ==> lots[i].acquired <= time
  }

  predicate SameDates(lots: seq<Lot>, lots': seq<Lot>) {
    |lots| == |lots'| && forall i :: 0 <= i < |lots| ==> lots'[i].acquired == lots[i].acquired
  }

  predicate ValidLot(lot: Lot) {
    && lot.quantity <= QUANTITY_LIMIT && lot.debit <= CASH_LIMIT && 0 <= lot.acquired <= INT64_MAX
    && (lot.quantity == 0 ==> lot.debit == 0)
  }

  // ------------------------------------------------------------------------
  // The positions of an account
  // ------------------------------------------------------------------------

  class StudyPositions {
    var positions: seq<Position>
    var lots: seq<Lot>
    const capitalTime: CapitalTime
    /** The lots of each position, in first-in first-out order. */
    ghost var chains: seq<seq<nat>>
    /** All cost ever acquired, and all cost released by closing. */
    ghost var acquired: int
    ghost var released: int
    /** The time integral of all held cost up to `clock`. */
    ghost var clock: int
    ghost var integral: int

    constructor (attempts: nat)
      ensures Valid() && fresh(capitalTime)
      ensures |positions| == attempts * 2 && forall p :: 0 <= p < |positions| ==> Holdings(p) == []
      ensures Stocks() == seq(attempts * 2, _ => Stock(PayoffLeg(0, false), [])) && capitalTime.Value() == 0
      ensures acquired == 0 && released == 0 && integral == 0 && lots == []
    {
      positions := seq(attempts * 2, _ => Position(PayoffLeg(0, false), 0, None, None));
      lots := [];
      capitalTime := new CapitalTime();
      chains := seq(attempts * 2, _ => []);
      acquired, released, clock, integral := 0, 0, 0, 0;
    }

    ghost predicate Valid()
      reads this, capitalTime
    {
      && capitalTime.Valid() && Structure(chains, lots, positions)
      && TotalDebit(lots) + released == acquired
      && capitalTime.Value() + CostTime(lots, clock) == integral
    }

    /** What a position holds, oldest first. */
    ghost function Holdings(p: nat): seq<Holding>
      requires Valid() && p < |positions|
      reads this, capitalTime
    {
      Held(chains[p], lots)
    }

    /** All positions without their links. */
    ghost function Stocks(): (s: seq<Stock>)
      reads this
      ensures |s| == |positions|
    {
      StocksOf(positions, chains, lots)
    }

    /** The integral up to `time`, if nothing changes until then. */
    ghost function IntegralAt(time: int): int
      reads this
    {
      integral + (time - clock) * TotalDebit(lots)
    }

    /** A position's quantity is the sum of its lots. */
    lemma QuantityIsHeld(p: nat)
      requires Valid() && p < |positions|
      ensures positions[p].quantity == HeldQuantity(Holdings(p)) && Open(Holdings(p))
    {
      LinkedInRange(chains[p], lots, positions[p].head);
    }

    lemma StockIsHeld(p: nat)
      requires Valid() && p < |positions|
      ensures Stocks()[p] == Stock(positions[p].leg, Holdings(p)) && HeldQuantity(Stocks()[p].lots) == positions[p].quantity
    {
    }

    /** Appends a lot to the position of one leg of one attempt. */
    method Acquire(attempt: nat, legIndex: nat, leg: PayoffLeg, quantity: int, debit: int, time: int)
      returns (fault: Option<PositionFault>)
      requires Valid() && legIndex < 2 && attempt * 2 + legIndex < |positions| && 0 <= time <= INT64_MAX
      modifies this
      ensures Valid() && |positions| == old(|positions|)
      ensures fault == if quantity <= 0 || quantity > QUANTITY_LIMIT - old(positions[attempt * 2 + legIndex].quantity)
                          || debit < 0 || debit > CASH_LIMIT then Some(AcquisitionBound) else None
      ensures fault.Some? ==> lots == old(lots) && positions == old(positions) && acquired == old(acquired) && integral == old(integral)
      ensures fault.None? ==>
        && Holdings(attempt * 2 + legIndex) == old(Holdings(attempt * 2 + legIndex)) + [Holding(quantity, debit, time)]
        && positions[attempt * 2 + legIndex].leg == leg
        && positions[attempt * 2 + legIndex].quantity == old(positions[attempt * 2 + legIndex].quantity) + quantity
        && acquired == old(acquired) + debit && clock == time && integral == old(IntegralAt(time))
        && Stocks() == (var p := attempt * 2 + legIndex; var s := old(Stocks()); s[p := Stock(leg, s[p].lots + [Holding(quantity, debit, time)])])
      ensures released == old(released)
      ensures forall p :: 0 <= p < |positions| && p != attempt * 2 + legIndex ==>
        Holdings(p) == old(Holdings(p)) && positions[p] == old(positions[p])
      ensures AcquiredBy(old(lots), time) ==> AcquiredBy(lots, time)
    {
      hide Held, Structure, Chained, Appended, CapitalTime.Value, CapitalTime.Valid, TotalDebit, CostTime, StocksOf;
      var p := attempt * 2 + legIndex;
      if quantity <= 0 || quantity > QUANTITY_LIMIT - positions[p].quantity || debit < 0 || debit > CASH_LIMIT {
        return Some(AcquisitionBound);
      }
      ghost var chains0, lots0, positions0, lot := chains, lots, positions, Lot(quantity, debit, time, None);
      AcquireKeepsStructure(chains0, lots0, positions0, p, leg, lot);
      AppendSums(chains0[p], lots0, positions0[p], lot, clock, time);
      var n := |lots|;
      if positions[p].tail.Some? {
        var tail := positions[p].tail.value;
        lots := lots[tail := lots[tail].(next := Some(n))];
      }
      var head := if positions[p].head.None? then Some(n) else positions[p].head;
      assert Position(leg, positions[p].quantity + quantity, head, Some(n)) == Extended(positions0[p], leg, quantity, n);
      positions := positions[p := Position(leg, positions[p].quantity + quantity, head, Some(n))];
      lots := lots + [Lot(quantity, debit, time, None)];
      chains := chains[p := chains[p] + [n]];
      StocksReplaced(positions0, chains0, lots0, p, positions[p], chains[p], lots);
      integral := integral + (time - clock) * TotalDebit(lots0);
      acquired, clock := acquired + debit, time;
      return None;
    }

    // ----------------------------------------------------------------------
    // Closing
    // ----------------------------------------------------------------------

    /** Closes `quantity` of a position, oldest lots first. The guards on lot accounting are in
        the code; they never decide. After a fault the object is not used again. */
    method ClosePosition(p: nat, quantity: int, time: int) returns (fault: Option<PositionFault>, basis: int)
      requires Valid() && p < |positions| && 0 <= time <= INT64_MAX
      modifies this, capitalTime
      ensures fault == if quantity < 0 || quantity > old(positions[p].quantity) then Some(UnownedPosition)
                       else CloseFault(old(Holdings(p)), quantity, time, old(capitalTime.Value()))
      ensures fault == Some(UnownedPosition) <==> quantity < 0 || quantity > old(positions[p].quantity)
      ensures fault in {None, Some(UnownedPosition), Some(NegativeCapitalTime), Some(CapitalTimeOverflow)}
      ensures fault.None? ==>
        var c := CloseFifo(old(Holdings(p)), quantity, time);
        && Valid() && |positions| == old(|positions|)
        && basis == c.released && Holdings(p) == c.left
        && positions[p].leg == old(positions[p].leg) && positions[p].quantity == old(positions[p].quantity) - quantity
        && released == old(released) + basis && acquired == old(acquired)
        && clock == time && integral == old(IntegralAt(time))
        && forall p' :: 0 <= p' < |positions| && p' != p ==> Holdings(p') == old(Holdings(p')) && positions[p'] == old(positions[p'])
      ensures fault.None? ==>
        var s, c := old(Stocks()), CloseFifo(old(Holdings(p)), quantity, time);
        && s[p].lots == old(Holdings(p)) && Stocks() == s[p := Stock(s[p].leg, c.left)]
        && capitalTime.Value() == old(capitalTime.Value()) + c.costTime
      ensures SameDates(old(lots), lots) && (AcquiredBy(old(lots), time) ==> fault != Some(NegativeCapitalTime))
      ensures AcquiredBy(old(lots), time) && 0 <= quantity <= old(positions[p].quantity) ==>
        (fault == Some(CapitalTimeOverflow) <==> Overflows(old(capitalTime.Value()) + CloseFifo(old(Holdings(p)), quantity, time).costTime))
    {
      hide Held, Structure, Closing, CloseFifo, CloseFault, TotalDebit, CostTime, CapitalTime.Value, CapitalTime.Valid, Overflows, StocksOf;
      if quantity < 0 || quantity > positions[p].quantity {
        return Some(UnownedPosition), 0;
      }
      ghost var lots0, positions0 := lots, positions;
      CostTimeGrows(lots, clock, time);
      ghost var rest, costTime;
      fault, basis, rest, costTime := CloseLots(p, quantity, time);
      if fault.Some? {
        return;
      }
      ClosingEnds(chains, lots0, positions0, p, rest, lots, positions[p], quantity, time, basis, costTime);
      ghost var closed := positions[p].(quantity := positions[p].quantity - quantity);
      positions := positions[p := positions[p].(quantity := positions[p].quantity - quantity)];
      assert positions == positions0[p := closed];
      StocksReplaced(positions0, chains, lots0, p, closed, rest, lots);
      chains := chains[p := rest];
      integral := integral + (time - clock) * TotalDebit(lots0);
      released, clock := released + basis, time;
    }

    /** The loop over the lots of the position. */
    method CloseLots(p: nat, quantity: nat, time: int)
      returns (fault: Option<PositionFault>, basis: int, ghost rest: seq<nat>, ghost costTime: int)
      requires capitalTime.Valid() && Structure(chains, lots, positions) && p < |positions| && 0 <= time <= INT64_MAX
      requires quantity <= positions[p].quantity
      modifies this`lots, this`positions, capitalTime
      ensures fault == CloseFault(Held(old(chains[p]), old(lots)), quantity, time, old(capitalTime.Value()))
      ensures fault in {None, Some(NegativeCapitalTime), Some(CapitalTimeOverflow)}
      ensures fault.None? ==>
        && |chains| == |positions| == old(|positions|) && positions == old(positions)[p := positions[p]]
        && Closing(chains[p], old(lots), rest, lots, old(positions[p]), positions[p], quantity, time, 0, basis, costTime)
        && capitalTime.Valid() && capitalTime.Value() == old(capitalTime.Value()) + costTime
      ensures SameDates(old(lots), lots) && (AcquiredBy(old(lots), time) ==> fault != Some(NegativeCapitalTime))
      ensures AcquiredBy(old(lots), time) ==>
        (fault == Some(CapitalTimeOverflow) <==> Overflows(old(capitalTime.Value()) + CloseFifo(Held(old(chains[p]), old(lots)), quantity, time).costTime))
    {
      hide Held, Structure, Closing, CloseFifo, CloseFault, Share, Taken, TotalDebit, CostTime, ValidLot, CapitalTime.Value, CapitalTime.Valid, Basis,
        Overflows;
      capitalTime.WithinBound();
      ClosingBegins(chains, lots, positions, p, quantity, time);
      FaultInTime(chains[p], lots, quantity, time, capitalTime.Value());
      ghost var chain, lots0, positions0 := chains[p], lots, positions;
      basis, rest, costTime := 0, chain, 0;
      var remaining: nat := quantity;
      while remaining != 0
        invariant |positions| == |positions0| && positions == positions0[p := positions[p]]
        invariant Closing(chain, lots0, rest, lots, positions0[p], positions[p], quantity, time, remaining, basis, costTime)
        invariant capitalTime.Valid() && capitalTime.Value() == old(capitalTime.Value()) + costTime
        invariant SameDates(lots0, lots)
        invariant CloseFault(Held(chain, lots0), quantity, time, old(capitalTime.Value()))
          == CloseFault(Held(rest, lots), remaining, time, capitalTime.Value())
        decreases remaining
      {
        ClosingFault(chain, lots0, rest, lots, positions0[p], positions[p], quantity, time, remaining, basis, costTime, capitalTime.Value());
        ClosingStep(chain, lots0, rest, lots, positions0[p], positions[p], quantity, time, remaining, basis, costTime);
        if positions[p].head.None? {
          fault := Some(LotAccountingFault);
          return;
        }
        var i := positions[p].head.value;
        var lot := lots[i];
        var take := Min(remaining, lot.quantity);
        var share := ShareOf(lot, take);
        fault := capitalTime.Add(share, time - lot.acquired);
        if fault.Some? {
          return;
        }
        costTime := costTime + share * (time - lot.acquired);
        lots := lots[i := Taken(lot, take)];
        remaining := remaining - take;
        basis := basis + share;
        if lots[i].quantity == 0 {
          if lots[i].debit != 0 {
            fault := Some(CostRemainder);
            return;
          }
          var head := lots[i].next;
          positions := positions[p := positions[p].(head := head, tail := if head.None? then None else positions[p].tail)];
          rest := rest[1..];
        }
      }
      NothingFaults(Held(rest, lots), time, capitalTime.Value());
      fault := None;
    }

    /** The share of a lot's cost, in unsigned 64-bit arithmetic. */
    method ShareOf(lot: Lot, take: nat) returns (share: int)
      requires 0 < take <= lot.quantity && ValidLot(lot)
      ensures share == Share(lot, take)
    {
      if take == lot.quantity {
        return lot.debit;
      }
      ShareFitsInt64(lot, take);
      var debit, quantity, part := lot.debit as uint64, lot.quantity as uint64, take as uint64;
      var whole, rest := debit / quantity * part, debit % quantity * part / quantity;
      return whole as int + rest as int;
    }

    method Close(attempt: nat, legIndex: nat, quantity: int, time: int) returns (fault: Option<PositionFault>, basis: int)
      requires Valid() && legIndex < 2 && attempt * 2 + legIndex < |positions| && 0 <= time <= INT64_MAX
      modifies this, capitalTime
      ensures var p := attempt * 2 + legIndex;
        && (fault == if quantity < 0 || quantity > old(positions[p].quantity) then Some(UnownedPosition)
                     else CloseFault(old(Holdings(p)), quantity, time, old(capitalTime.Value())))
        && (fault == Some(UnownedPosition) <==> quantity < 0 || quantity > old(positions[p].quantity))
        && fault in {None, Some(UnownedPosition), Some(NegativeCapitalTime), Some(CapitalTimeOverflow)}
        && (fault.None? ==>
              var c := CloseFifo(old(Holdings(p)), quantity, time);
              && Valid() && |positions| == old(|positions|)
              && basis == c.released && Holdings(p) == c.left
              && positions[p].leg == old(positions[p].leg) && positions[p].quantity == old(positions[p].quantity) - quantity
              && released == old(released) + basis && acquired == old(acquired) && IntegralAt(time) == old(IntegralAt(time))
              && forall p' :: 0 <= p' < |positions| && p' != p ==> Holdings(p') == old(Holdings(p')) && positions[p'] == old(positions[p']))
      ensures var p := attempt * 2 + legIndex;
        && (fault.None? ==>
              var s, c := old(Stocks()), CloseFifo(old(Holdings(p)), quantity, time);
              && s[p].lots == old(Holdings(p)) && Stocks() == s[p := Stock(s[p].leg, c.left)]
              && capitalTime.Value() == old(capitalTime.Value()) + c.costTime)
        && (AcquiredBy(old(lots), time) && 0 <= quantity <= old(positions[p].quantity) ==>
              (fault == Some(CapitalTimeOverflow) <==> Overflows(old(capitalTime.Value()) + CloseFifo(old(Holdings(p)), quantity, time).costTime)))
      ensures SameDates(old(lots), lots) && (AcquiredBy(old(lots), time) ==> fault != Some(NegativeCapitalTime))
    {
      hide CloseFifo, CloseFault, Overflows, CapitalTime.Value, Held, Structure;
      fault, basis := ClosePosition(attempt * 2 + legIndex, quantity, time);
    }

    // ----------------------------------------------------------------------
    // Settlement
    // ----------------------------------------------------------------------

    /** Closes every position on the settled market and pays a dollar per winning contract. */
    method Settle(s: Settlement) returns (fault: Option<PositionFault>, quantity: int, payout: int)
      requires Valid() && 0 <= s.time <= INT64_MAX
      modifies this, capitalTime
      ensures fault in {None, Some(SettledQuantityOverflow), Some(SettlementPayoutBound), Some(NegativeCapitalTime), Some(CapitalTimeOverflow)}
      ensures AcquiredBy(old(lots), s.time) ==> fault == SettleFault(old(Stocks()), s, old(capitalTime.Value()))
      ensures fault.None? ==>
        var x := old(Stocks());
        && Valid() && |positions| == old(|positions|) && Stocks() == SettledStocks(x, s)
        && quantity == SettledQuantity(x, s) && payout == SettledPayout(x, s) <= CASH_LIMIT
        && capitalTime.Value() == old(capitalTime.Value()) + SettledCostTime(x, s)
        && acquired == old(acquired) && IntegralAt(s.time) == old(IntegralAt(s.time))
        && SettledOn(old(positions), positions, s)
      ensures SameDates(old(lots), lots)
    {
      hide Structure, Held, CloseFifo, CloseFault, TotalDebit, CostTime, HeldQuantity, SettledCostTime, SettleFault, OneFault, OneCostTime,
        CapitalTime.Value, CapitalTime.Valid, Emptied, SettledIn, Midway, IntegralAt, StocksOf;
      quantity, payout := 0, 0;
      ghost var x, before := Stocks(), positions;
      NothingSettled(s, capitalTime.Value());
      MidwayBegins(x, before, s);
      var i := 0;
      while i < |positions|
        invariant i <= |positions| == |before| && Valid() && x == old(Stocks())
        invariant quantity == SettledQuantity(x[..i], s) && payout == SettledPayout(x[..i], s) <= CASH_LIMIT
        invariant capitalTime.Value() == old(capitalTime.Value()) + SettledCostTime(x[..i], s)
        invariant acquired == old(acquired) && IntegralAt(s.time) == old(IntegralAt(s.time))
        invariant Midway(x, Stocks(), before, positions, i, s)
        invariant SameDates(old(lots), lots)
        invariant AcquiredBy(old(lots), s.time) ==> SettleFault(x[..i], s, old(capitalTime.Value())) == None
      {
        SettledNext(x, i, s, old(capitalTime.Value()));
        MidwayNext(x, Stocks(), before, positions, i, s);
        fault, quantity, payout := SettleOne(i, s, quantity, payout);
        if fault.Some? {
          FaultStays(x, i + 1, s, old(capitalTime.Value()));
          return;
        }
        i := i + 1;
      }
      assert x[..i] == x;
      MidwayEnds(x, Stocks(), before, positions, s);
      fault := None;
    }

    /** Closes one position if it is on the settled market. */
    method SettleOne(i: nat, s: Settlement, quantity0: int, payout0: int) returns (fault: Option<PositionFault>, quantity: int, payout: int)
      requires Valid() && i < |positions| && 0 <= s.time <= INT64_MAX && 0 <= quantity0 && 0 <= payout0 <= CASH_LIMIT
      modifies this, capitalTime
      ensures fault in {None, Some(SettledQuantityOverflow), Some(SettlementPayoutBound), Some(NegativeCapitalTime), Some(CapitalTimeOverflow)}
      ensures AcquiredBy(old(lots), s.time) ==>
        var x := old(Stocks()[i]);
        fault == OneFault(x, s, quantity0 + OneQuantity(x, s), payout0 + OnePayout(x, s), old(capitalTime.Value()) + OneCostTime(x, s))
      ensures fault.None? ==>
        var x := old(Stocks());
        && Valid() && |positions| == old(|positions|) && Stocks() == x[i := Emptied(x[i], s)]
        && quantity == quantity0 + OneQuantity(x[i], s) && payout == payout0 + OnePayout(x[i], s) <= CASH_LIMIT
        && capitalTime.Value() == old(capitalTime.Value()) + OneCostTime(x[i], s)
        && acquired == old(acquired) && IntegralAt(s.time) == old(IntegralAt(s.time))
        && SettledIn(old(positions[i]), positions[i], s) && forall p :: 0 <= p < |positions| && p != i ==> positions[p] == old(positions[p])
      ensures SameDates(old(lots), lots)
    {
      hide Structure, Held, CloseFifo, CloseFault, TotalDebit, CostTime, HeldQuantity, Overflows, CapitalTime.Value, CapitalTime.Valid;
      quantity, payout := quantity0, payout0;
      fault := None;
      StockIsHeld(i);
      QuantityIsHeld(i);
      EmptyPosition(i);
      EmptyCostsNothing(Stocks()[i], s);
      var position := positions[i];
      if position.quantity != 0 && position.leg.marketId == s.marketId {
        var q := position.quantity;
        if q > INT64_MAX - quantity {
          fault := Some(SettledQuantityOverflow);
          return;
        }
        quantity := quantity + q;
        if position.leg.yes == s.yesWins {
          if q * 10_000 > CASH_LIMIT - payout {
            fault := Some(SettlementPayoutBound);
            return;
          }
          payout := payout + q * 10_000;
        }
        CloseAllReleasesAll(Holdings(i), s.time);
        var basis;
        fault, basis := ClosePosition(i, q, s.time);
      }
    }

    lemma EmptyPosition(p: nat)
      requires Valid() && p < |positions|
      ensures positions[p].quantity == 0 ==> Holdings(p) == []
    {
      QuantityIsHeld(p);
    }

    // ----------------------------------------------------------------------
    // The end of the study
    // ----------------------------------------------------------------------

    /** Accounts the lots that are still held at the end. Then the capital time is exactly the
        time integral of the cost that was held, however it was cut into lots. */
    method Finish(time: int) returns (fault: Option<PositionFault>)
      requires Valid() && 0 <= time <= INT64_MAX
      modifies capitalTime
      ensures fault in {None, Some(NegativeCapitalTime), Some(CapitalTimeOverflow)}
      ensures fault.None? ==> capitalTime.Value() == old(IntegralAt(time))
      ensures AcquiredBy(lots, time) ==> fault == if Overflows(old(IntegralAt(time))) then Some(CapitalTimeOverflow) else None
    {
      hide Structure, Overflows, CostTime, CapitalTime.Value;
      CostTimeGrows(lots, clock, time);
      CostTimeEmpty(time);
      capitalTime.WithinBound();
      assert AllValid(lots) by { StructureIsValid(chains, lots, positions); }
      var i := 0;
      while i < |lots|
        invariant i <= |lots| && capitalTime.Valid()
        invariant capitalTime.Value() == old(capitalTime.Value()) + CostTime(lots[..i], time)
        invariant !Overflows(capitalTime.Value())
      {
        assert lots[..i + 1] == lots[..i] + [lots[i]];
        SumsAppend(lots[..i], lots[i], time);
        if AcquiredBy(lots, time) {
          CostTimePrefix(lots, i + 1, time);
          OverflowMonotone(old(capitalTime.Value()) + CostTime(lots[..i + 1], time), old(IntegralAt(time)));
        }
        if lots[i].quantity != 0 {
          fault := capitalTime.Add(lots[i].debit, time - lots[i].acquired);
          if fault.Some? {
            return;
          }
        }
        i := i + 1;
      }
      assert lots[..i] == lots;
      return None;
    }
  }

  lemma StructureIsValid(chains: seq<seq<nat>>, lots: seq<Lot>, positions: seq<Position>)
    requires Structure(chains, lots, positions)
    ensures AllValid(lots)
  {
  }

  // ------------------------------------------------------------------------
  // When closing fails
  // ------------------------------------------------------------------------

  /** The first lot taken whose share of the capital time cannot be added to `value`. */
  function CloseFault(h: seq<Holding>, quantity: nat, time: int, value: int): Option<PositionFault>
    decreases h
  {
    if quantity == 0 || h == [] then None
    else
      var take := Min(quantity, h[0].quantity);
      var sum := value + Basis(h[0], take) * (time - h[0].acquired);
      if time < h[0].acquired then Some(NegativeCapitalTime)
      else if Overflows(sum) then Some(CapitalTimeOverflow)
      else CloseFault(h[1..], quantity - take, time, sum)
  }

  /** Closing `quantity` reaches the k-th lot. */
  predicate Reaches(h: seq<Holding>, quantity: nat, k: nat) {
    k < |h| && HeldQuantity(h[..k]) < quantity
  }

  /** The k-th lot is taken before it was acquired, and what is taken before it is in order. */
  ghost predicate TooEarly(h: seq<Holding>, quantity: nat, time: int, value: int, k: nat) {
    && Reaches(h, quantity, k) && time < h[k].acquired && (forall j :: 0 <= j < k ==> h[j].acquired <= time)
    && !Overflows(value + CloseFifo(h, HeldQuantity(h[..k]), time).costTime)
  }

  /** Closing succeeds exactly when every lot that it takes was acquired by then and the capital
      time of all of them fits; it fails on a negative time exactly when a lot that it takes was
      acquired later and the capital time of the lots before it fits. */
  lemma {:induction false} CloseFaultMeaning(h: seq<Holding>, quantity: nat, time: int, value: int)
    requires Open(h) && !Overflows(value)
    ensures CloseFault(h, quantity, time, value) == None <==>
      && (forall k: nat :: Reaches(h, quantity, k) ==> h[k].acquired <= time)
      && !Overflows(value + CloseFifo(h, quantity, time).costTime)
    ensures CloseFault(h, quantity, time, value) == Some(NegativeCapitalTime) <==> exists k: nat :: TooEarly(h, quantity, time, value, k)
    decreases h
  {
    hide Overflows, CloseFifo, Basis, HeldQuantity;
    FirstReached(h, quantity, time);
    if quantity != 0 && h != [] {
      var take := Min(quantity, h[0].quantity);
      var sum := value + Basis(h[0], take) * (time - h[0].acquired);
      if time < h[0].acquired {
        assert TooEarly(h, quantity, time, value, 0);
      } else if Overflows(sum) {
        LaterOverflows(h, quantity, time, value);
      } else {
        CloseFaultMeaning(h[1..], quantity - take, time, sum);
        LaterMeaning(h, h[1..], quantity, quantity - take, time, value, sum);
      }
    }
  }

  lemma FirstReached(h: seq<Holding>, quantity: nat, time: int)
    ensures h != [] && quantity > 0 ==> Reaches(h, quantity, 0)
    ensures h == [] || quantity == 0 ==> CloseFifo(h, quantity, time).costTime == 0 && forall k: nat :: !Reaches(h, quantity, k)
    ensures |h[..0]| == 0 && HeldQuantity(h[..0]) == 0 && CloseFifo(h, 0, time).costTime == 0
  {
  }

  /** Closing goes on with the later lots. */
  lemma CostNext(h: seq<Holding>, quantity: nat, time: int)
    requires h != [] && quantity > 0
    ensures var take := Min(quantity, h[0].quantity);
      CloseFifo(h, quantity, time).costTime
      == Basis(h[0], take) * (time - h[0].acquired) + CloseFifo(h[1..], quantity - take, time).costTime
  {
  }

  lemma ReachesNext(h: seq<Holding>, quantity: nat, k: nat)
    requires h != [] && quantity > 0
    ensures Reaches(h, quantity, k + 1) <==> Reaches(h[1..], quantity - Min(quantity, h[0].quantity), k)
    ensures k < |h| ==> HeldQuantity(h[..k + 1]) == h[0].quantity + HeldQuantity(h[1..][..k])
  {
    if k < |h| {
      assert h[..k + 1][1..] == h[1..][..k];
    }
  }

  lemma TooEarlyNext(h: seq<Holding>, quantity: nat, time: int, value: int, k: nat)
    requires Open(h) && h != [] && quantity > 0 && h[0].acquired <= time
    ensures var take := Min(quantity, h[0].quantity);
      TooEarly(h, quantity, time, value, k + 1)
      <==> TooEarly(h[1..], quantity - take, time, value + Basis(h[0], take) * (time - h[0].acquired), k)
  {
    hide Overflows, CloseFifo, Basis, HeldQuantity;
    ReachesNext(h, quantity, k);
    if Reaches(h, quantity, k + 1) {
      CostNext(h, HeldQuantity(h[..k + 1]), time);
      assert forall j :: 0 <= j < k ==> h[1..][j] == h[j + 1];
      assert forall j :: 0 < j < k + 1 ==> h[j] == h[1..][j - 1];
    }
  }

  /** Whatever the later lots add, an overflow stays one. */
  lemma LaterOverflows(h: seq<Holding>, quantity: nat, time: int, value: int)
    requires Open(h) && h != [] && quantity > 0 && h[0].acquired <= time
    requires Overflows(value + Basis(h[0], Min(quantity, h[0].quantity)) * (time - h[0].acquired))
    ensures (forall k: nat :: Reaches(h, quantity, k) ==> h[k].acquired <= time) ==> Overflows(value + CloseFifo(h, quantity, time).costTime)
    ensures forall k: nat :: !TooEarly(h, quantity, time, value, k)
  {
    hide Overflows, CloseFifo, Basis, HeldQuantity;
    var take := Min(quantity, h[0].quantity);
    var sum := value + Basis(h[0], take) * (time - h[0].acquired);
    if forall k: nat :: Reaches(h, quantity, k) ==> h[k].acquired <= time {
      CostNext(h, quantity, time);
      TakenCost(h, quantity, time);
      OverflowMonotone(sum, value + CloseFifo(h, quantity, time).costTime);
    }
    forall k: nat ensures !TooEarly(h, quantity, time, value, k) {
      if TooEarly(h, quantity, time, value, k) {
        assert k > 0;
        TooEarlyNext(h, quantity, time, value, k - 1);
        EarlierCost(h[1..], k - 1, time);
        OverflowMonotone(sum, sum + CloseFifo(h[1..], HeldQuantity(h[1..][..k - 1]), time).costTime);
      }
    }
  }

  /** Past a first lot that is in order, closing `left` of the rest has the same outcome. */
  lemma LaterMeaning(h: seq<Holding>, rest: seq<Holding>, quantity: nat, left: nat, time: int, value: int, sum: int)
    requires Open(h) && h != [] && quantity > 0 && h[0].acquired <= time && rest == h[1..]
    requires left == quantity - Min(quantity, h[0].quantity)
    requires sum == value + Basis(h[0], Min(quantity, h[0].quantity)) * (time - h[0].acquired) && !Overflows(sum)
    ensures CloseFault(h, quantity, time, value) == CloseFault(rest, left, time, sum)
    ensures value + CloseFifo(h, quantity, time).costTime == sum + CloseFifo(rest, left, time).costTime
    ensures (forall k: nat :: Reaches(h, quantity, k) ==> h[k].acquired <= time)
      <==> forall k: nat :: Reaches(rest, left, k) ==> rest[k].acquired <= time
    ensures (exists k: nat :: TooEarly(h, quantity, time, value, k)) <==> exists k: nat :: TooEarly(rest, left, time, sum, k)
  {
    hide Overflows, CloseFifo, Basis, HeldQuantity, TooEarly;
    CostNext(h, quantity, time);
    if forall k: nat :: Reaches(h, quantity, k) ==> h[k].acquired <= time {
      forall k: nat | Reaches(rest, left, k) ensures rest[k].acquired <= time {
        ReachesNext(h, quantity, k);
        assert Reaches(h, quantity, k + 1);
      }
    }
    if forall k: nat :: Reaches(rest, left, k) ==> rest[k].acquired <= time {
      forall k: nat | Reaches(h, quantity, k) ensures h[k].acquired <= time {
        if k > 0 {
          ReachesNext(h, quantity, k - 1);
          assert Reaches(rest, left, k - 1);
        }
      }
    }
    if k: nat :| TooEarly(h, quantity, time, value, k) {
      NotTooEarly(h, quantity, time, value);
      TooEarlyNext(h, quantity, time, value, k - 1);
    }
    if k: nat :| TooEarly(rest, left, time, sum, k) {
      TooEarlyNext(h, quantity, time, value, k);
    }
  }

  lemma NotTooEarly(h: seq<Holding>, quantity: nat, time: int, value: int)
    requires h != [] && h[0].acquired <= time
    ensures !TooEarly(h, quantity, time, value, 0)
  {
  }

  /** Lots that were acquired by then have a non-negative capital time. */
  lemma {:induction false} TakenCost(h: seq<Holding>, quantity: nat, time: int)
    requires forall k: nat :: Reaches(h, quantity, k) ==> h[k].acquired <= time
    ensures CloseFifo(h, quantity, time).costTime >= 0
    ensures h != [] && quantity > 0 ==> CloseFifo(h[1..], quantity - Min(quantity, h[0].quantity), time).costTime >= 0
    decreases h
  {
    hide Basis, CloseFifo, HeldQuantity;
    FirstReached(h, quantity, time);
    if h != [] && quantity > 0 {
      var take := Min(quantity, h[0].quantity);
      forall k: nat | Reaches(h[1..], quantity - take, k) ensures h[1..][k].acquired <= time {
        ReachesNext(h, quantity, k);
        assert Reaches(h, quantity, k + 1);
      }
      CostNext(h, quantity, time);
      MulMonotone(0, time - h[0].acquired, Basis(h[0], take));
      TakenCost(h[1..], quantity - take, time);
    }
  }

  lemma EarlierCost(h: seq<Holding>, k: nat, time: int)
    requires k <= |h| && forall j :: 0 <= j < k ==> h[j].acquired <= time
    ensures CloseFifo(h, HeldQuantity(h[..k]), time).costTime >= 0
  {
    forall j: nat | Reaches(h, HeldQuantity(h[..k]), j) ensures h[j].acquired <= time {
      if j >= k {
        HeldGrows(h, k, j);
      }
    }
    TakenCost(h, HeldQuantity(h[..k]), time);
  }

  lemma {:induction false} HeldGrows(h: seq<Holding>, k: nat, j: nat)
    requires k <= j <= |h|
    ensures HeldQuantity(h[..k]) <= HeldQuantity(h[..j])
    decreases h
  {
    if k > 0 {
      assert h[..k][1..] == h[1..][..k - 1] && h[..j][1..] == h[1..][..j - 1];
      HeldGrows(h[1..], k - 1, j - 1);
    }
  }

  // ------------------------------------------------------------------------
  // Settlement
  // ------------------------------------------------------------------------

  /** What one position adds to a settlement: its contracts, a dollar for each winning one, and
      the cost-time of its lots. */
  function OneQuantity(x: Stock, s: Settlement): nat {
    if x.leg.marketId == s.marketId then HeldQuantity(x.lots) else 0
  }

  function OnePayout(x: Stock, s: Settlement): nat {
    if x.leg.yes == s.yesWins then OneQuantity(x, s) * 10_000 else 0
  }

  function OneCostTime(x: Stock, s: Settlement): int {
    if x.leg.marketId == s.marketId then CloseFifo(x.lots, HeldQuantity(x.lots), s.time).costTime else 0
  }

  /** The bound that settling one more position breaks, with what is settled after it. */
  function OneFault(x: Stock, s: Settlement, quantity: int, payout: int, value: int): Option<PositionFault> {
    if OneQuantity(x, s) == 0 then None
    else if quantity > INT64_MAX then Some(SettledQuantityOverflow)
    else if payout > CASH_LIMIT then Some(SettlementPayoutBound)
    else if Overflows(value) then Some(CapitalTimeOverflow)
    else None
  }

  function Emptied(x: Stock, s: Settlement): Stock {
    if x.leg.marketId == s.marketId then x.(lots := []) else x
  }

  function SettledQuantity(stocks: seq<Stock>, s: Settlement): nat {
    if stocks == [] then 0 else SettledQuantity(stocks[..|stocks| - 1], s) + OneQuantity(stocks[|stocks| - 1], s)
  }

  function SettledPayout(stocks: seq<Stock>, s: Settlement): nat {
    if stocks == [] then 0 else SettledPayout(stocks[..|stocks| - 1], s) + OnePayout(stocks[|stocks| - 1], s)
  }

  function SettledCostTime(stocks: seq<Stock>, s: Settlement): int {
    if stocks == [] then 0 else SettledCostTime(stocks[..|stocks| - 1], s) + OneCostTime(stocks[|stocks| - 1], s)
  }

  function SettledStocks(stocks: seq<Stock>, s: Settlement): seq<Stock> {
    seq(|stocks|, i requires 0 <= i < |stocks| => Emptied(stocks[i], s))
  }

  /** The first bound that settling the positions in order breaks, if any. */
  function SettleFault(stocks: seq<Stock>, s: Settlement, value: int): Option<PositionFault> {
    if stocks == [] then None
    else
      var before := SettleFault(stocks[..|stocks| - 1], s, value);
      if before.Some? then before
      else
        OneFault(stocks[|stocks| - 1], s, SettledQuantity(stocks, s), SettledPayout(stocks, s), value + SettledCostTime(stocks, s))
  }

  /** One position after a settlement. */
  predicate SettledIn(p: Position, p': Position, s: Settlement) {
    if p.leg.marketId == s.marketId then p'.quantity == 0 && p'.leg == p.leg else p' == p
  }

  predicate SettledOn(positions: seq<Position>, positions': seq<Position>, s: Settlement) {
    |positions'| == |positions| && forall i :: 0 <= i < |positions| ==> SettledIn(positions[i], positions'[i], s)
  }

  /** The first i positions are settled. */
  ghost predicate Midway(x: seq<Stock>, stocks: seq<Stock>, before: seq<Position>, positions: seq<Position>, i: nat, s: Settlement) {
    && |stocks| == |x| && |positions| == |before| == |x|
    && (forall p :: 0 <= p < |x| ==> stocks[p] == if p < i then Emptied(x[p], s) else x[p])
    && forall p :: 0 <= p < |before| ==> if p < i then SettledIn(before[p], positions[p], s) else positions[p] == before[p]
  }

  lemma MidwayBegins(x: seq<Stock>, before: seq<Position>, s: Settlement)
    requires |x| == |before|
    ensures Midway(x, x, before, before, 0, s)
  {
  }

  lemma MidwayNext(x: seq<Stock>, stocks: seq<Stock>, before: seq<Position>, positions: seq<Position>, i: nat, s: Settlement)
    requires Midway(x, stocks, before, positions, i, s) && i < |x|
    ensures stocks[i] == x[i] && positions[i] == before[i]
    ensures forall positions': seq<Position> ::
      |positions'| == |positions| && SettledIn(positions[i], positions'[i], s) && (forall p :: 0 <= p < |positions| && p != i ==> positions'[p] == positions[p])
      ==> Midway(x, stocks[i := Emptied(stocks[i], s)], before, positions', i + 1, s)
  {
  }

  lemma MidwayEnds(x: seq<Stock>, stocks: seq<Stock>, before: seq<Position>, positions: seq<Position>, s: Settlement)
    requires Midway(x, stocks, before, positions, |x|, s)
    ensures stocks == SettledStocks(x, s) && SettledOn(before, positions, s)
  {
  }

  lemma NothingSettled(s: Settlement, value: int)
    ensures SettledQuantity([], s) == SettledPayout([], s) == SettledCostTime([], s) == 0 && SettleFault([], s, value) == None
  {
  }

  lemma SettledNext(stocks: seq<Stock>, i: nat, s: Settlement, value: int)
    requires i < |stocks|
    ensures SettledQuantity(stocks[..i + 1], s) == SettledQuantity(stocks[..i], s) + OneQuantity(stocks[i], s)
    ensures SettledPayout(stocks[..i + 1], s) == SettledPayout(stocks[..i], s) + OnePayout(stocks[i], s)
    ensures SettledCostTime(stocks[..i + 1], s) == SettledCostTime(stocks[..i], s) + OneCostTime(stocks[i], s)
    ensures SettleFault(stocks[..i], s, value) == None ==>
      SettleFault(stocks[..i + 1], s, value)
        == OneFault(stocks[i], s, SettledQuantity(stocks[..i + 1], s), SettledPayout(stocks[..i + 1], s), value + SettledCostTime(stocks[..i + 1], s))
  {
    assert stocks[..i + 1][..i] == stocks[..i];
  }

  lemma {:induction false} FaultStays(stocks: seq<Stock>, i: nat, s: Settlement, value: int)
    requires i <= |stocks|
    ensures SettleFault(stocks[..i], s, value).Some? ==> SettleFault(stocks, s, value) == SettleFault(stocks[..i], s, value)
    decreases |stocks|
  {
    if i == |stocks| {
      assert stocks[..i] == stocks;
    } else {
      FaultStays(stocks[..|stocks| - 1], i, s, value);
      assert stocks[..|stocks| - 1][..i] == stocks[..i];
    }
  }

  lemma {:induction false} SettleFaultKinds(stocks: seq<Stock>, s: Settlement, value: int)
    ensures var f := SettleFault(stocks, s, value);
      f.Some? ==> f.value == SettledQuantityOverflow || f.value == SettlementPayoutBound || f.value == CapitalTimeOverflow
    decreases |stocks|
  {
    if stocks != [] {
      SettleFaultKinds(stocks[..|stocks| - 1], s, value);
    }
  }

  /** Settling breaks a bound exactly when its totals do. */
  lemma {:induction false} SettleFaultMeaning(stocks: seq<Stock>, s: Settlement, value: int)
    requires forall i, j :: 0 <= i < |stocks| && 0 <= j < |stocks[i].lots| ==> stocks[i].lots[j].acquired <= s.time
    requires !Overflows(value)
    ensures SettledCostTime(stocks, s) >= 0
    ensures SettleFault(stocks, s, value) == None <==>
      && SettledQuantity(stocks, s) <= INT64_MAX && SettledPayout(stocks, s) <= CASH_LIMIT && !Overflows(value + SettledCostTime(stocks, s))
    decreases |stocks|
  {
    if stocks != [] {
      hide CloseFifo, HeldQuantity, Overflows;
      var before, last := stocks[..|stocks| - 1], stocks[|stocks| - 1];
      SettleFaultMeaning(before, s, value);
      CostTimeNonNegative(last.lots, HeldQuantity(last.lots), s.time);
      OverflowMonotone(value + SettledCostTime(before, s), value + SettledCostTime(stocks, s));
      EmptyCostsNothing(last, s);
    }
  }

  /** Who is paid: whichever outcome wins, every contract on the market is paid under exactly one of
      them, a dollar each; positions that hold only the losing outcome are paid nothing and those
      that hold only the winning one are paid in full. */
  lemma {:induction false} PayoutSpelledOut(stocks: seq<Stock>, market: nat, time: int, yesWins: bool)
    ensures SettledQuantity(stocks, Settlement(market, true, time)) == SettledQuantity(stocks, Settlement(market, false, time))
    ensures SettledPayout(stocks, Settlement(market, true, time)) + SettledPayout(stocks, Settlement(market, false, time))
      == 10_000 * SettledQuantity(stocks, Settlement(market, yesWins, time))
    ensures (forall i :: 0 <= i < |stocks| && stocks[i].leg.marketId == market ==> stocks[i].leg.yes == !yesWins) ==>
      SettledPayout(stocks, Settlement(market, yesWins, time)) == 0
    ensures (forall i :: 0 <= i < |stocks| && stocks[i].leg.marketId == market ==> stocks[i].leg.yes == yesWins) ==>
      SettledPayout(stocks, Settlement(market, yesWins, time)) == 10_000 * SettledQuantity(stocks, Settlement(market, yesWins, time))
    decreases |stocks|
  {
    if stocks != [] {
      hide HeldQuantity;
      PayoutSpelledOut(stocks[..|stocks| - 1], market, time, yesWins);
    }
  }

  /** One more position adds what it holds, if it is on the market, and a dollar for each of its
      contracts if they win; it is emptied exactly then. */
  lemma SettlementAdds(stocks: seq<Stock>, x: Stock, s: Settlement)
    ensures SettledQuantity([], s) == 0 && SettledPayout([], s) == 0
    ensures var on, held := x.leg.marketId == s.marketId, HeldQuantity(x.lots);
      && SettledQuantity(stocks + [x], s) == SettledQuantity(stocks, s) + (if on then held else 0)
      && SettledPayout(stocks + [x], s) == SettledPayout(stocks, s) + (if on && x.leg.yes == s.yesWins then 10_000 * held else 0)
      && SettledCostTime(stocks + [x], s) == SettledCostTime(stocks, s) + (if on then CloseFifo(x.lots, held, s.time).costTime else 0)
      && SettledStocks(stocks + [x], s) == SettledStocks(stocks, s) + [if on then Stock(x.leg, []) else x]
  {
    assert (stocks + [x])[..|stocks|] == stocks;
    assert forall i :: 0 <= i < |stocks| ==> (stocks + [x])[i] == stocks[i];
  }

  lemma EmptyCostsNothing(x: Stock, s: Settlement)
    ensures OneQuantity(x, s) == 0 ==> OneCostTime(x, s) == 0
    ensures x.lots == [] ==> Emptied(x, s) == x
  {
  }

  // ------------------------------------------------------------------------
  // One step of closing
  // ------------------------------------------------------------------------

  /** `whole` is what has been closed so far followed by `rest`. */
  predicate Resumed(whole: Closed, basis: int, costTime: int, rest: Closed) {
    whole.left == rest.left && whole.released == basis + rest.released && whole.costTime == costTime + rest.costTime
  }

  lemma TouchesAgain(chain: seq<nat>, rest: seq<nat>, lots0: seq<Lot>, lots: seq<Lot>, lot: Lot)
    requires TouchesOnly(chain, lots0, lots) && Renews(chain, rest, lots0) && InRange(rest, lots) && |lots| == |lots0| && rest != []
    ensures TouchesOnly(chain, lots0, lots[rest[0] := lot]) && Renews(chain, rest[1..], lots0)
  {
  }

  /** The code's share of a lot's cost. */
  function Share(lot: Lot, take: nat): int
    requires 0 < take <= lot.quantity
  {
    if take == lot.quantity then lot.debit
    else (lot.debit / lot.quantity) * take + (lot.debit % lot.quantity) * take / lot.quantity
  }

  function HoldingOf(lot: Lot): Holding {
    Holding(lot.quantity, lot.debit, lot.acquired)
  }

  lemma ShareIsBasis(lot: Lot, take: nat)
    requires 0 < take <= lot.quantity && ValidLot(lot)
    ensures Share(lot, take) == Basis(HoldingOf(lot), take) <= lot.debit
    ensures take == lot.quantity ==> Share(lot, take) == lot.debit
  {
    BasisAtMost(HoldingOf(lot), take);
    if take < lot.quantity {
      SplitShareIsFloor(lot.debit, lot.quantity, take);
    }
  }

  /** Both products of the split share fit 64 bits, which debit * take need not. */
  lemma ShareFitsInt64(lot: Lot, take: nat)
    requires 0 < take < lot.quantity && ValidLot(lot)
    ensures 0 <= (lot.debit % lot.quantity) * take <= 10_000_000_000_000_000
    ensures 0 <= (lot.debit / lot.quantity) * take <= CASH_LIMIT
  {
    var k, r := lot.debit / lot.quantity, lot.debit % lot.quantity;
    MulMonotone(r, QUANTITY_LIMIT, take);
    MulMonotone(take, QUANTITY_LIMIT, QUANTITY_LIMIT);
    MulMonotone(take, lot.quantity, k);
    assert k * lot.quantity <= lot.debit;
  }

  function Taken(lot: Lot, take: nat): Lot
    requires 0 < take <= lot.quantity && ValidLot(lot)
  {
    ShareIsBasis(lot, take);
    lot.(quantity := lot.quantity - take, debit := lot.debit - Share(lot, take))
  }

  lemma TakenSums(lots: seq<Lot>, i: nat, take: nat, time: int)
    requires i < |lots| && AllValid(lots) && 0 < take <= lots[i].quantity
    ensures var lots' := lots[i := Taken(lots[i], take)];
      && AllValid(lots')
      && TotalDebit(lots') + Share(lots[i], take) == TotalDebit(lots)
      && CostTime(lots', time) + Share(lots[i], take) * (time - lots[i].acquired) == CostTime(lots, time)
  {
    hide Share;
    ShareIsBasis(lots[i], take);
    SumsUpdate(lots, i, Taken(lots[i], take), time);
    Distribute(lots[i].debit - Share(lots[i], take), Share(lots[i], take), time - lots[i].acquired);
  }

  /** The chain after taking from its head lot: unlinked when nothing is left of it. */
  lemma TakenChain(rest: seq<nat>, lots: seq<Lot>, head: Option<nat>, tail: Option<nat>, take: nat)
    requires InRange(rest, lots) && Linked(rest, lots, head) && Ends(rest, tail) && rest != [] && AllValid(lots)
    requires 0 < take <= lots[rest[0]].quantity
    ensures var lot := lots[rest[0]]; var lots' := lots[rest[0] := Taken(lot, take)];
      && Held(rest, lots) == [HoldingOf(lot)] + Held(rest[1..], lots)
      && Held(rest[1..], lots') == Held(rest[1..], lots)
      && Held(rest, lots') == [HoldingOf(Taken(lot, take))] + Held(rest[1..], lots)
      && InRange(rest, lots') && InRange(rest[1..], lots')
      && Linked(rest[1..], lots', lot.next)
      && Ends(rest[1..], if lot.next.None? then None else tail)
      && (take < lot.quantity ==> Linked(rest, lots', head))
  {
    hide Share;
    var c, lot := rest[0], lots[rest[0]];
    var lots' := lots[c := Taken(lot, take)];
    UnconsLinked(rest, lots, head);
    ChainFrame(rest[1..], lots, lots', lot.next);
    UnconsLinked(rest[1..], lots, lot.next);
    assert rest == [c] + rest[1..];
    if take < lot.quantity {
      ConsLinked(c, rest[1..], lots');
    }
  }

  /** Closing on values takes the same step. */
  lemma TakenFifo(first: Lot, others: seq<Holding>, remaining: nat, time: int)
    requires ValidLot(first) && first.quantity > 0 && 0 < remaining <= first.quantity + HeldQuantity(others)
    ensures var take := Min(remaining, first.quantity);
      var share, h := Share(first, take), [HoldingOf(first)] + others;
      var h' := if take == first.quantity then others else [HoldingOf(Taken(first, take))] + others;
      && remaining - take <= HeldQuantity(h')
      && Resumed(CloseFifo(h, remaining, time), share, share * (time - first.acquired), CloseFifo(h', remaining - take, time))
  {
    var take := Min(remaining, first.quantity);
    ShareIsBasis(first, take);
    hide Share, Basis;
    assert ([HoldingOf(first)] + others)[1..] == others;
    assert ([HoldingOf(Taken(first, take))] + others)[1..] == others;
  }

  lemma HeadIsOpen(rest: seq<nat>, lots: seq<Lot>, head: Option<nat>, remaining: nat)
    requires InRange(rest, lots) && Linked(rest, lots, head) && 0 < remaining <= HeldQuantity(Held(rest, lots))
    ensures rest != [] && head == Some(rest[0]) && lots[rest[0]].quantity > 0
  {
  }

  lemma HeldCons(h: Holding, others: seq<Holding>)
    ensures HeldQuantity([h] + others) == h.quantity + HeldQuantity(others)
  {
    assert ([h] + others)[1..] == others;
  }

  /** Taking from the head lot: a whole lot is unlinked with all of its cost, part of a lot
      ends the close and gives up the floor of its share. */
  lemma CloseStep(rest: seq<nat>, lots: seq<Lot>, head: Option<nat>, tail: Option<nat>, remaining: nat, time: int)
    requires InRange(rest, lots) && Linked(rest, lots, head) && Ends(rest, tail) && AllValid(lots)
    requires 0 < remaining <= HeldQuantity(Held(rest, lots))
    ensures rest != [] && head == Some(rest[0]) && lots[rest[0]].quantity > 0 && ValidLot(lots[rest[0]])
    ensures var lot := lots[rest[0]];
      var take := Min(remaining, lot.quantity);
      var share, lots' := Share(lot, take), lots[rest[0] := Taken(lot, take)];
      var rest' := if take == lot.quantity then rest[1..] else rest;
      && AllValid(lots') && 0 <= share <= lot.debit && (take == lot.quantity ==> share == lot.debit)
      && TotalDebit(lots') + share == TotalDebit(lots)
      && CostTime(lots', time) + share * (time - lot.acquired) == CostTime(lots, time)
      && InRange(rest', lots') && Linked(rest', lots', if take == lot.quantity then lot.next else head)
      && Ends(rest', if take == lot.quantity && lot.next.None? then None else tail)
      && remaining - take <= HeldQuantity(Held(rest', lots'))
      && Resumed(CloseFifo(Held(rest, lots), remaining, time), share, share * (time - lot.acquired),
                 CloseFifo(Held(rest', lots'), remaining - take, time))
  {
    hide Share, CloseFifo, Linked, Held, HeldQuantity, Resumed;
    HeadIsOpen(rest, lots, head, remaining);
    var lot := lots[rest[0]];
    var take := Min(remaining, lot.quantity);
    ShareIsBasis(lot, take);
    TakenSums(lots, rest[0], take, time);
    TakenChain(rest, lots, head, tail, take);
    HeldCons(HoldingOf(lot), Held(rest[1..], lots));
    TakenFifo(lot, Held(rest[1..], lots), remaining, time);
  }

  /** A close in progress: `rest` is what is still linked, and what was closed so far followed
      by closing `remaining` of it is the whole close. */
  ghost predicate Closing(chain: seq<nat>, lots0: seq<Lot>, rest: seq<nat>, lots: seq<Lot>, p0: Position, p: Position,
                          quantity: nat, time: int, remaining: nat, basis: int, costTime: int) {
    && p.leg == p0.leg && p.quantity == p0.quantity
    && InRange(rest, lots) && Linked(rest, lots, p.head) && Ends(rest, p.tail)
    && remaining <= HeldQuantity(Held(rest, lots)) && AllValid(lots) && |lots| == |lots0|
    && TouchesOnly(chain, lots0, lots) && Renews(chain, rest, lots0)
    && Resumed(CloseFifo(Held(chain, lots0), quantity, time), basis, costTime, CloseFifo(Held(rest, lots), remaining, time))
    && TotalDebit(lots) + basis == TotalDebit(lots0)
    && CostTime(lots, time) + costTime == CostTime(lots0, time)
  }

  lemma ClosingBegins(chains: seq<seq<nat>>, lots: seq<Lot>, positions: seq<Position>, p: nat, quantity: nat, time: int)
    requires Structure(chains, lots, positions) && p < |positions| && quantity <= positions[p].quantity
    ensures |chains| == |positions|
    ensures Closing(chains[p], lots, chains[p], lots, positions[p], positions[p], quantity, time, quantity, 0, 0)
  {
  }

  lemma ClosingStep(chain: seq<nat>, lots0: seq<Lot>, rest: seq<nat>, lots: seq<Lot>, p0: Position, p: Position,
                    quantity: nat, time: int, remaining: nat, basis: int, costTime: int)
    requires Closing(chain, lots0, rest, lots, p0, p, quantity, time, remaining, basis, costTime) && remaining > 0
    ensures rest != [] && p.head == Some(rest[0]) && rest[0] < |lots|
    ensures var lot := lots[rest[0]];
      var take := Min(remaining, lot.quantity);
      && ValidLot(lot) && 0 <= lot.acquired <= INT64_MAX && 0 < take <= lot.quantity && 0 <= Share(lot, take) <= CASH_LIMIT
      && Taken(lot, take) == lot.(quantity := lot.quantity - take, debit := Taken(lot, take).debit)
      && (take == lot.quantity ==> Taken(lot, take).debit == 0)
      && Closing(chain, lots0, if take == lot.quantity then rest[1..] else rest, lots[rest[0] := Taken(lot, take)], p0,
                 if take == lot.quantity then p.(head := lot.next, tail := if lot.next.None? then None else p.tail) else p,
                 quantity, time, remaining - take, basis + Share(lot, take), costTime + Share(lot, take) * (time - lot.acquired))
  {
    hide Share, CloseFifo, Linked, Held, HeldQuantity, TouchesOnly, Renews, TotalDebit, CostTime, Ends;
    CloseStep(rest, lots, p.head, p.tail, remaining, time);
    TouchesAgain(chain, rest, lots0, lots, Taken(lots[rest[0]], Min(remaining, lots[rest[0]].quantity)));
  }

  lemma TakenFault(first: Lot, others: seq<Holding>, remaining: nat, time: int, value: int)
    requires 0 < remaining && first.quantity > 0 && ValidLot(first)
    ensures var take := Min(remaining, first.quantity);
      var share, h := Share(first, take), [HoldingOf(first)] + others;
      var h' := if take == first.quantity then others else [HoldingOf(Taken(first, take))] + others;
      var sum := value + share * (time - first.acquired);
      CloseFault(h, remaining, time, value)
      == if time < first.acquired then Some(NegativeCapitalTime) else if Overflows(sum) then Some(CapitalTimeOverflow)
         else CloseFault(h', remaining - take, time, sum)
  {
    var take := Min(remaining, first.quantity);
    ShareIsBasis(first, take);
    hide Share, Basis;
    assert ([HoldingOf(first)] + others)[1..] == others;
  }

  /** What the head lot adds decides how a close goes on. */
  lemma ClosingFault(chain: seq<nat>, lots0: seq<Lot>, rest: seq<nat>, lots: seq<Lot>, p0: Position, p: Position,
                     quantity: nat, time: int, remaining: nat, basis: int, costTime: int, value: int)
    requires Closing(chain, lots0, rest, lots, p0, p, quantity, time, remaining, basis, costTime) && remaining > 0
    ensures rest != [] && rest[0] < |lots| && ValidLot(lots[rest[0]])
    ensures var lot := lots[rest[0]];
      var take := Min(remaining, lot.quantity);
      0 < take <= lot.quantity &&
      var sum := value + Share(lot, take) * (time - lot.acquired);
      CloseFault(Held(rest, lots), remaining, time, value)
      == if time < lot.acquired then Some(NegativeCapitalTime) else if Overflows(sum) then Some(CapitalTimeOverflow)
         else CloseFault(Held(if take == lot.quantity then rest[1..] else rest, lots[rest[0] := Taken(lot, take)]), remaining - take, time, sum)
  {
    hide Share, CloseFifo, CloseFault, Linked, Held, HeldQuantity, Overflows;
    HeadIsOpen(rest, lots, p.head, remaining);
    var lot := lots[rest[0]];
    TakenChain(rest, lots, p.head, p.tail, Min(remaining, lot.quantity));
    TakenFault(lot, Held(rest[1..], lots), remaining, time, value);
  }

  lemma NothingFaults(h: seq<Holding>, time: int, value: int)
    ensures CloseFault(h, 0, time, value) == None
  {
  }

  /** A close of lots that were all acquired by then only fails when its capital time does. */
  lemma FaultInTime(chain: seq<nat>, lots: seq<Lot>, quantity: nat, time: int, value: int)
    requires !Overflows(value)
    ensures AcquiredBy(lots, time) ==>
      CloseFault(Held(chain, lots), quantity, time, value)
      == if Overflows(value + CloseFifo(Held(chain, lots), quantity, time).costTime) then Some(CapitalTimeOverflow) else None
  {
    hide Held, Overflows;
    if AcquiredBy(lots, time) {
      HeldDates(chain, lots, time);
      OnlyOverflows(Held(chain, lots), quantity, time, value);
    }
  }

  lemma {:induction false} OnlyOverflows(h: seq<Holding>, quantity: nat, time: int, value: int)
    requires !Overflows(value) && forall i :: 0 <= i < |h| ==> h[i].acquired <= time
    ensures CloseFault(h, quantity, time, value)
      == if Overflows(value + CloseFifo(h, quantity, time).costTime) then Some(CapitalTimeOverflow) else None
    decreases h
  {
    hide Overflows, Basis;
    if quantity != 0 && h != [] {
      var take := Min(quantity, h[0].quantity);
      var sum := value + Basis(h[0], take) * (time - h[0].acquired);
      CostTimeNonNegative(h[1..], quantity - take, time);
      OverflowMonotone(sum, sum + CloseFifo(h[1..], quantity - take, time).costTime);
      if !Overflows(sum) {
        OnlyOverflows(h[1..], quantity - take, time, sum);
      }
    }
  }

  lemma {:induction false} HeldDates(chain: seq<nat>, lots: seq<Lot>, time: int)
    requires AcquiredBy(lots, time)
    ensures forall i :: 0 <= i < |Held(chain, lots)| ==> Held(chain, lots)[i].acquired <= time
    decreases chain
  {
    if chain != [] {
      HeldDates(chain[1..], lots, time);
    }
  }

  lemma ClosingEnds(chains: seq<seq<nat>>, lots0: seq<Lot>, positions0: seq<Position>, p: nat, rest: seq<nat>, lots: seq<Lot>,
                    position: Position, quantity: nat, time: int, basis: int, costTime: int)
    requires Structure(chains, lots0, positions0) && p < |positions0| && quantity <= positions0[p].quantity
    requires Closing(chains[p], lots0, rest, lots, positions0[p], position, quantity, time, 0, basis, costTime)
    ensures var c := CloseFifo(Held(chains[p], lots0), quantity, time);
      && basis == c.released && costTime == c.costTime && Held(rest, lots) == c.left
      && position.leg == positions0[p].leg && position.quantity == positions0[p].quantity
      && TotalDebit(lots) + basis == TotalDebit(lots0)
      && CostTime(lots, time) + costTime == CostTime(lots0, time)
    ensures Structure(chains[p := rest], lots, positions0[p := position.(quantity := position.quantity - quantity)])
    ensures forall p' :: 0 <= p' < |positions0| && p' != p ==> Held(chains[p'], lots) == Held(chains[p'], lots0)
  {
    hide Held, Linked, TouchesOnly, Renews, AllValid, TotalDebit, CostTime, Disjoint, HeldQuantity;
    LinkedInRange(chains[p], lots0, positions0[p].head);
    CloseConserves(Held(chains[p], lots0), quantity, time);
    ReplaceChain(chains, lots0, positions0, p, rest, lots, position.(quantity := position.quantity - quantity));
  }

  /** The chains are those of the positions, apart from each other, over valid lots. */
  ghost predicate Structure(chains: seq<seq<nat>>, lots: seq<Lot>, positions: seq<Position>) {
    && |chains| == |positions|
    && (forall p :: 0 <= p < |positions| ==> Chained(chains[p], lots, positions[p]))
    && (forall p, p' :: 0 <= p < p' < |positions| ==> Disjoint(chains[p], chains[p']))
    && AllValid(lots)
  }

  predicate AllValid(lots: seq<Lot>) {
    forall i :: 0 <= i < |lots| ==> ValidLot(lots[i])
  }

  /** A position with `lot` linked behind its tail. */
  function Extended(p: Position, leg: PayoffLeg, quantity: nat, n: nat): Position {
    Position(leg, p.quantity + quantity, if p.head.None? then Some(n) else p.head, Some(n))
  }

  lemma AppendKeepsChain(chain: seq<nat>, lots: seq<Lot>, p: Position, leg: PayoffLeg, lot: Lot)
    requires Chained(chain, lots, p)
    requires lot.quantity > 0 && lot.next == None && p.quantity + lot.quantity <= QUANTITY_LIMIT
    ensures p.tail.Some? ==> p.tail.value < |lots|
    ensures Appended(chain, lots, lot) == (if p.tail.Some? then lots[p.tail.value := lots[p.tail.value].(next := Some(|lots|))] else lots) + [lot]
    ensures var lots', n := Appended(chain, lots, lot), |lots|;
      && Chained(chain + [n], lots', Extended(p, leg, lot.quantity, n))
      && Held(chain + [n], lots') == Held(chain, lots) + [Holding(lot.quantity, lot.debit, lot.acquired)]
  {
    UnconsLinked(chain, lots, p.head);
    ChainAppend(chain, lots, p.head, lot);
    HeldAppend(Held(chain, lots), Holding(lot.quantity, lot.debit, lot.acquired));
  }

  lemma AppendTouches(chain: seq<nat>, lots: seq<Lot>, lot: Lot)
    requires InRange(chain, lots) && AllValid(lots) && ValidLot(lot)
    ensures var lots', n := Appended(chain, lots, lot), |lots|;
      TouchesOnly(chain, lots, lots') && Renews(chain, chain + [n], lots) && AllValid(lots')
  {
  }

  lemma ChainedInRange(chain: seq<nat>, lots: seq<Lot>, p: Position)
    requires Chained(chain, lots, p)
    ensures InRange(chain, lots)
  {
  }

  /** Only lots of `chain` differ, and new lots follow. */
  predicate TouchesOnly(chain: seq<nat>, lots: seq<Lot>, lots': seq<Lot>) {
    |lots| <= |lots'| && forall i :: 0 <= i < |lots| && lots'[i] != lots[i] ==> i in chain
  }

  /** Changes to other lots leave a position alone. */
  lemma OtherChainKept(chain: seq<nat>, lots: seq<Lot>, lots': seq<Lot>, p: Position, touched: seq<nat>)
    requires Chained(chain, lots, p) && Disjoint(chain, touched) && TouchesOnly(touched, lots, lots')
    ensures Chained(chain, lots', p) && Held(chain, lots') == Held(chain, lots)
  {
    ChainFrame(chain, lots, lots', p.head);
  }

  lemma DisjointSymmetric(a: seq<nat>, b: seq<nat>)
    requires Disjoint(a, b)
    ensures Disjoint(b, a)
  {
  }

  /** `chain'` holds lots of `chain` and new ones. */
  predicate Renews(chain: seq<nat>, chain': seq<nat>, lots: seq<Lot>) {
    forall i :: 0 <= i < |chain'| ==> chain'[i] in chain || chain'[i] >= |lots|
  }

  lemma DisjointRenewed(a: seq<nat>, chain: seq<nat>, chain': seq<nat>, lots: seq<Lot>, p: Position)
    requires Disjoint(a, chain) && Chained(a, lots, p) && Renews(chain, chain', lots)
    ensures Disjoint(a, chain') && Disjoint(chain', a)
  {
  }

  /** Replacing one position's chain keeps the structure and every other position. */
  lemma ReplaceChain(chains: seq<seq<nat>>, lots: seq<Lot>, positions: seq<Position>, p: nat,
                     chain': seq<nat>, lots': seq<Lot>, position': Position)
    requires Structure(chains, lots, positions) && p < |positions|
    requires Chained(chain', lots', position') && AllValid(lots')
    requires TouchesOnly(chains[p], lots, lots') && Renews(chains[p], chain', lots)
    ensures Structure(chains[p := chain'], lots', positions[p := position'])
    ensures forall p' :: 0 <= p' < |positions| && p' != p ==> Chained(chains[p'], lots, positions[p']) && Held(chains[p'], lots') == Held(chains[p'], lots)
  {
    hide Held, Disjoint, Chained, TouchesOnly, Renews, AllValid;
    forall p' | 0 <= p' < |positions| && p' != p
      ensures Chained(chains[p'], lots', positions[p']) && Held(chains[p'], lots') == Held(chains[p'], lots)
      ensures Disjoint(chains[p'], chain') && Disjoint(chain', chains[p'])
    {
      if p' > p {
        DisjointSymmetric(chains[p], chains[p']);
      }
      OtherChainKept(chains[p'], lots, lots', positions[p'], chains[p]);
      DisjointRenewed(chains[p'], chains[p], chain', lots, positions[p']);
    }
  }

  lemma AcquireKeepsStructure(chains: seq<seq<nat>>, lots: seq<Lot>, positions: seq<Position>, p: nat, leg: PayoffLeg, lot: Lot)
    requires Structure(chains, lots, positions) && p < |positions|
    requires lot.quantity > 0 && lot.next == None && ValidLot(lot) && positions[p].quantity + lot.quantity <= QUANTITY_LIMIT
    ensures |chains| == |positions| && Chained(chains[p], lots, positions[p]) && InRange(chains[p], lots)
    ensures var n, lots' := |lots|, Appended(chains[p], lots, lot);
      && (positions[p].tail.Some? ==> positions[p].tail.value < |lots|)
      && lots' == (if positions[p].tail.Some? then lots[positions[p].tail.value := lots[positions[p].tail.value].(next := Some(|lots|))] else lots) + [lot]
      && Structure(chains[p := chains[p] + [n]], lots', positions[p := Extended(positions[p], leg, lot.quantity, n)])
      && Held(chains[p] + [n], lots') == Held(chains[p], lots) + [Holding(lot.quantity, lot.debit, lot.acquired)]
      && forall p' :: 0 <= p' < |positions| && p' != p ==> Chained(chains[p'], lots, positions[p']) && Held(chains[p'], lots') == Held(chains[p'], lots)
  {
    hide Held, Linked, Disjoint, Extended, Appended, TouchesOnly, Renews, Chained, AllValid, ValidLot;
    ChainedInRange(chains[p], lots, positions[p]);
    var chain, n, lots' := chains[p], |lots|, Appended(chains[p], lots, lot);
    AppendKeepsChain(chain, lots, positions[p], leg, lot);
    AppendTouches(chain, lots, lot);
    ReplaceChain(chains, lots, positions, p, chain + [n], lots', Extended(positions[p], leg, lot.quantity, n));
  }

  lemma AppendSums(chain: seq<nat>, lots: seq<Lot>, p: Position, lot: Lot, clock: int, time: int)
    requires Chained(chain, lots, p) && lot.acquired == time
    ensures var lots' := Appended(chain, lots, lot);
      && TotalDebit(lots') == TotalDebit(lots) + lot.debit
      && CostTime(lots', time) == CostTime(lots, clock) + (time - clock) * TotalDebit(lots)
  {
    hide Held, Linked;
    CostTimeGrows(lots, clock, time);
    if chain == [] {
      SumsAppend(lots, lot, time);
    } else {
      var last := chain[|chain| - 1];
      var linked := lots[last].(next := Some(|lots|));
      SumsUpdate(lots, last, linked, time);
      SumsAppend(lots[last := linked], lot, time);
    }
  }
}
