/** First-in first-out cost accounting on values: what closing part of a position releases
    (src/session/study_positions.hpp). */
module LotAccounting {
  import opened FixedPoint

  /** Lots are linked by index: `next` is the following lot of the same position. */
  datatype Lot = Lot(quantity: nat, debit: nat, acquired: int, next: Option<nat>)

  /** A lot without its link: what a position holds. */
  datatype Holding = Holding(quantity: nat, debit: nat, acquired: int)

  /** The result of closing: what is still held, the released cost and its cost-time. */
  datatype Closed = Closed(left: seq<Holding>, released: nat, costTime: int)

  /** The cost of `take` out of a lot, rounded down; a whole lot gives up all of its cost. */
  function Basis(h: Holding, take: nat): nat {
    if take >= h.quantity then h.debit else h.debit * take / h.quantity
  }

  function CloseFifo(h: seq<Holding>, quantity: nat, time: int): Closed
    decreases h
  {
    if quantity == 0 || h == [] then Closed(h, 0, 0)
    else
      var take := Min(quantity, h[0].quantity);
      var basis := Basis(h[0], take);
      var costTime := basis * (time - h[0].acquired);
      if take == h[0].quantity then
        var rest := CloseFifo(h[1..], quantity - take, time);
        Closed(rest.left, basis + rest.released, costTime + rest.costTime)
      else
        BasisAtMost(h[0], take);
        Closed([h[0].(quantity := h[0].quantity - take, debit := h[0].debit - basis)] + h[1..], basis, costTime)
  }

  /** Only lots with something left are held. */
  predicate Open(h: seq<Holding>) {
    forall i :: 0 <= i < |h| ==> h[i].quantity > 0
  }

  function HeldQuantity(h: seq<Holding>): nat {
    if h == [] then 0 else h[0].quantity + HeldQuantity(h[1..])
  }

  function HeldDebit(h: seq<Holding>): nat {
    if h == [] then 0 else h[0].debit + HeldDebit(h[1..])
  }

  lemma BasisAtMost(h: Holding, take: nat)
    ensures Basis(h, take) <= h.debit
  {
    if take < h.quantity {
      MulMonotone(take, h.quantity, h.debit);
      DivMonotone(h.debit * take, h.debit * h.quantity, h.quantity);
      DivUnique(h.debit * h.quantity, h.quantity, h.debit);
    }
  }

  lemma SplitDebit(k: nat, r: nat, quantity: nat, take: nat)
    ensures (k * quantity + r) * take == k * take * quantity + r * take
  {
    Distribute(k * quantity, r, take);
    assert k * quantity * take == k * take * quantity;
  }

  /** The code's split quotient is the floor of the exact share. */
  lemma SplitShareIsFloor(debit: nat, quantity: nat, take: nat)
    requires 0 < take < quantity
    ensures (debit / quantity) * take + (debit % quantity) * take / quantity == debit * take / quantity
    ensures (debit % quantity) * take <= quantity * quantity
  {
    var k, r := debit / quantity, debit % quantity;
    SplitDebit(k, r, quantity, take);
    FloorOfSum(debit * take, k * take, r * take, quantity);
    RemainderShare(r, quantity, take);
  }

  lemma FloorOfSum(x: nat, a: nat, b: nat, quantity: nat)
    requires quantity > 0 && x == a * quantity + b
    ensures x / quantity == a + b / quantity
  {
    var f := b / quantity;
    assert f * quantity <= b < f * quantity + quantity;
    Distribute(a, f, quantity);
    DivUnique(x, quantity, a + f);
  }

  lemma RemainderShare(r: nat, quantity: nat, take: nat)
    requires r < quantity && take < quantity
    ensures r * take <= quantity * quantity
  {
    MulMonotone(r, quantity, take);
    MulMonotone(take, quantity, quantity);
  }

  /** Nothing is lost: quantity and cost are split exactly between what is closed and what is
      left. */
  lemma {:induction false} CloseConserves(h: seq<Holding>, quantity: nat, time: int)
    requires Open(h) && quantity <= HeldQuantity(h)
    ensures var c := CloseFifo(h, quantity, time);
      && Open(c.left)
      && HeldQuantity(c.left) == HeldQuantity(h) - quantity
      && HeldDebit(c.left) + c.released == HeldDebit(h)
    decreases h
  {
    if quantity != 0 {
      var take := Min(quantity, h[0].quantity);
      BasisAtMost(h[0], take);
      if take == h[0].quantity {
        CloseConserves(h[1..], quantity - take, time);
      } else {
        var left := h[0].(quantity := h[0].quantity - take, debit := h[0].debit - Basis(h[0], take));
        assert ([left] + h[1..])[1..] == h[1..];
      }
    }
  }

  /** The age of every lot's cost at `time`, added up. */
  function AgedCost(h: seq<Holding>, time: int): int {
    if h == [] then 0 else h[0].debit * (time - h[0].acquired) + AgedCost(h[1..], time)
  }

  /** First in, first out: closing all of the lots `a` and `take` of the next one gives up all their
      cost and the floor of its share, each at its own age, and leaves the rest of it and the later
      lots as they are. */
  lemma {:induction false} FifoSpelledOut(a: seq<Holding>, x: Holding, b: seq<Holding>, take: nat, time: int)
    requires Open(a) && take < x.quantity
    ensures var share := x.debit * take / x.quantity;
      && 0 <= share <= x.debit
      && CloseFifo(a + [x] + b, HeldQuantity(a) + take, time)
         == Closed([Holding(x.quantity - take, x.debit - share, x.acquired)] + b, HeldDebit(a) + share,
                   AgedCost(a, time) + share * (time - x.acquired))
    decreases a
  {
    hide CloseFifo, Basis;
    BasisAtMost(x, take);
    ClosePart(x, b, take, time);
    if a == [] {
      assert a + [x] + b == [x] + b;
    } else {
      var rest := a[1..] + [x] + b;
      assert a + [x] + b == [a[0]] + rest;
      FifoSpelledOut(a[1..], x, b, take, time);
      CloseWhole(a[0], rest, HeldQuantity(a) + take, time);
    }
  }

  lemma ClosePart(x: Holding, b: seq<Holding>, take: nat, time: int)
    requires take < x.quantity
    ensures var share := x.debit * take / x.quantity;
      && 0 <= share <= x.debit
      && CloseFifo([x] + b, take, time)
         == Closed([Holding(x.quantity - take, x.debit - share, x.acquired)] + b, share, share * (time - x.acquired))
  {
    BasisAtMost(x, take);
    assert ([x] + b)[1..] == b;
    if take == 0 {
      assert x.debit * take == 0;
      assert [Holding(x.quantity, x.debit, x.acquired)] == [x];
    }
  }

  lemma CloseWhole(x: Holding, rest: seq<Holding>, quantity: nat, time: int)
    requires 0 < x.quantity <= quantity
    ensures var later := CloseFifo(rest, quantity - x.quantity, time);
      CloseFifo([x] + rest, quantity, time) == Closed(later.left, x.debit + later.released, x.debit * (time - x.acquired) + later.costTime)
  {
    assert ([x] + rest)[1..] == rest;
  }

  /** Cost that was not acquired after `time` has a non-negative age. */
  lemma {:induction false} CostTimeNonNegative(h: seq<Holding>, quantity: nat, time: int)
    requires forall i :: 0 <= i < |h| ==> h[i].acquired <= time
    ensures CloseFifo(h, quantity, time).costTime >= 0
    decreases h
  {
    if quantity != 0 && h != [] {
      var take := Min(quantity, h[0].quantity);
      MulMonotone(0, time - h[0].acquired, Basis(h[0], take));
      if take == h[0].quantity {
        CostTimeNonNegative(h[1..], quantity - take, time);
      }
    }
  }

  /** However a position is closed in pieces, closing all of it releases all of its cost. */
  lemma CloseAllReleasesAll(h: seq<Holding>, time: int)
    requires Open(h)
    ensures CloseFifo(h, HeldQuantity(h), time).released == HeldDebit(h)
    ensures CloseFifo(h, HeldQuantity(h), time).left == []
  {
    CloseConserves(h, HeldQuantity(h), time);
  }
}
