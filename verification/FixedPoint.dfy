/** Scaled integers of the engine (include/eme/core/fixed_point.hpp) and the integer
    arithmetic that the proofs about them need. Amounts are unbounded integers here;
    the subset types carry the ranges that the fixed-point classes enforce, and the
    newtypes make the verifier check every 64-bit intermediate that has one of them. */
module FixedPoint {

  const INT64_MAX := 0x7fff_ffff_ffff_ffff
  const UINT64_MAX := 0xffff_ffff_ffff_ffff

  /** Prices are in 1e-4 dollars, so one dollar is 10,000. */
  const PRICE_SCALE := 10_000

  /** The largest quantity of one order, in hundredths of a contract, and the largest amount of
      cash, in microdollars, that policies and sizing accept. */
  const QUANTITY_LIMIT := 100_000_000
  const CASH_LIMIT := 1_000_000_000_000_000

  newtype uint64 = x: int | 0 <= x <= 0xffff_ffff_ffff_ffff
  newtype int64 = x: int | -0x8000_0000_0000_0000 <= x <= 0x7fff_ffff_ffff_ffff

  type Price = x: int | 0 <= x <= 10_000
  type Quantity = x: int | 0 <= x <= 0x7fff_ffff_ffff_ffff

  datatype Option<+T> = None | Some(value: T)

  function Min(a: int, b: int): int {
    if a <= b then a else b
  }

  function Max(a: int, b: int): int {
    if a >= b then a else b
  }

  /** True iff x is representable as a signed 64-bit integer. */
  predicate FitsInt64(x: int) {
    -0x8000_0000_0000_0000 <= x <= INT64_MAX
  }

  /** The least k with k * d >= n. */
  function CeilDiv(n: int, d: int): (k: int)
    requires 0 <= n && 0 < d
    ensures k >= 0
  {
    (n + d - 1) / d
  }

  lemma MulMonotone(a: int, b: int, k: int)
    requires a <= b && 0 <= k
    ensures a * k <= b * k
    ensures k * a <= k * b
  {
  }

  lemma Distribute(a: int, b: int, k: int)
    ensures (a + b) * k == a * k + b * k
  {
  }

  /** Euclidean division by a positive number is determined by its two bounds. */
  lemma DivUnique(n: int, d: int, q: int)
    requires 0 < d && q * d <= n < q * d + d
    ensures n / d == q
  {
    var k := n / d;
    assert k * d <= n < k * d + d;
    assert (k + 1) * d == k * d + d && (q + 1) * d == q * d + d;
    if k < q {
      MulMonotone(k + 1, q, d);
    } else if q < k {
      MulMonotone(q + 1, k, d);
    }
  }

  lemma DivMonotone(a: int, b: int, d: int)
    requires a <= b && 0 < d
    ensures a / d <= b / d
  {
    var i, j := a / d, b / d;
    assert (j + 1) * d == j * d + d;
    if j < i {
      MulMonotone(j + 1, i, d);
    }
  }

  lemma CeilDivBounds(n: int, d: int)
    requires 0 <= n && 0 < d
    ensures n <= CeilDiv(n, d) * d < n + d
  {
  }

  lemma CeilDivUnique(n: int, d: int, k: int)
    requires 0 <= n && 0 < d && n <= k * d < n + d
    ensures CeilDiv(n, d) == k
  {
    DivUnique(n + d - 1, d, k);
  }

  lemma CeilDivMonotone(a: int, b: int, d: int)
    requires 0 <= a <= b && 0 < d
    ensures CeilDiv(a, d) <= CeilDiv(b, d)
  {
    DivMonotone(a + d - 1, b + d - 1, d);
  }

  /** A bound k * d on the numerator bounds the rounded-up quotient, and conversely. */
  lemma CeilDivAtMost(n: int, d: int, k: int)
    requires 0 <= n && 0 < d
    ensures n <= k * d <==> CeilDiv(n, d) <= k
  {
    var c := CeilDiv(n, d);
    CeilDivBounds(n, d);
    assert (k + 1) * d == k * d + d;
    if n <= k * d && k < c {
      MulMonotone(k + 1, c, d);
    }
    if c <= k {
      MulMonotone(c, k, d);
    }
  }

  lemma CeilDivOfFloor(n: int, d: int)
    requires 0 <= n && 0 < d
    ensures CeilDiv(n, d) == n / d + (if n % d != 0 then 1 else 0)
  {
    var k := n / d + (if n % d != 0 then 1 else 0);
    assert (n / d + 1) * d == (n / d) * d + d;
    CeilDivUnique(n, d, k);
  }

  /** Removing whole multiples of d does not change the remainder. */
  lemma ModDropsMultiples(n: int, d: int, k: int)
    requires 0 < d
    ensures (n + k * d) % d == n % d
  {
    var q := n / d;
    assert (q + k) * d == q * d + k * d;
    DivUnique(n + k * d, d, q + k);
  }

  /** A product may reduce one factor first. */
  lemma ModOfProduct(x: int, f: int, d: int)
    requires 0 < d
    ensures (x * (f % d)) % d == (x * f) % d
  {
    var k := f / d;
    assert x * f == x * (f % d) + (x * k) * d;
    ModDropsMultiples(x * (f % d), d, x * k);
  }

  /** Multiples of a grid step are closed under sum and difference. */
  lemma GridSum(a: int, b: int, step: int)
    requires 0 < step && a % step == 0 && b % step == 0
    ensures (a + b) % step == 0 && (a - b) % step == 0
  {
    assert a == a / step * step && b == b / step * step;
    ModDropsMultiples(a, step, b / step);
    ModDropsMultiples(a, step, -(b / step));
    assert -(b / step) * step == -b;
  }

  /** Two grid points that are less than a step apart are the same point. */
  lemma GridGap(a: int, b: int, step: int)
    requires 0 < step && a % step == 0 && b % step == 0 && a < b
    ensures a + step <= b
  {
    var i, j := a / step, b / step;
    assert a == i * step && b == j * step;
    if j <= i {
      MulMonotone(j, i, step);
    }
    MulMonotone(i + 1, j, step);
    assert (i + 1) * step == i * step + step;
  }

  lemma FloorToGrid(n: int, step: int)
    requires 0 <= n && 0 < step
    ensures var g := n / step * step; 0 <= g <= n < g + step && g % step == 0
  {
    ModDropsMultiples(0, step, n / step);
  }

  /** The floor to a grid is the greatest grid point not above n. */
  lemma FloorToGridGreatest(n: int, step: int, g: int)
    requires 0 <= n && 0 < step && g % step == 0 && g <= n
    ensures g <= n / step * step
  {
    FloorToGrid(n, step);
    if n / step * step < g {
      GridGap(n / step * step, g, step);
    }
  }
}
