/** Claims on the outcomes of a market, and the physical side of its book that trades them. */
module Contracts {
  import opened FixedPoint

  /** A claim on one outcome of a market. */
  datatype PayoffLeg = PayoffLeg(marketId: nat, yes: bool)

  /** Books are kept in YES units: a NO contract costs the complement of a YES bid. */
  function OutcomePrice(leg: PayoffLeg, bookPrice: Price): Price {
    if leg.yes then bookPrice else PRICE_SCALE - bookPrice
  }

  /** A physical level of a market's book: its side, and its price as the study that keeps the
      key counts it. */
  datatype Key = Key(market: nat, ask: bool, price: Price)

  /** What earlier simulated orders have taken at each level. */
  type Consumed = map<Key, nat>

  function Used(c: Consumed, key: Key): nat {
    if key in c then c[key] else 0
  }

  // ------------------------------------------------------------------------
  // What depends on a market
  // ------------------------------------------------------------------------

  predicate ListedUnder(dependencies: map<nat, seq<nat>>, m: nat, i: nat) {
    m in dependencies && i in dependencies[m]
  }

  /** The index with `n` listed under m. */
  function Dependent(dependencies: map<nat, seq<nat>>, m: nat, n: nat): map<nat, seq<nat>> {
    dependencies[m := (if m in dependencies then dependencies[m] else []) + [n]]
  }

  lemma DependentMeaning(dependencies: map<nat, seq<nat>>, m: nat, n: nat, m': nat, k: nat)
    ensures ListedUnder(Dependent(dependencies, m, n), m', k) <==> ListedUnder(dependencies, m', k) || (m' == m && k == n)
  {
  }
}
