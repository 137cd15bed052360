/** What the basket observation sizes (src/session/basket_observation.cpp): each market's sides as
    cached up to the quantity cap, and what exact sizing finds on three of them. */
module ObservedDepths {
  import opened FixedPoint
  import opened ExecutionCost
  import opened OrderBooks
  import DepthWalk
  import PairOptimum
  import BasketSizing

  datatype Status = Unavailable | Crossed | Expired | NoDepth | Unfunded | Nonpositive | Positive

  /** A market as cached: `dependencies` are the baskets that use it, `yes` and `no` what buying
      either outcome costs, for the outcomes that some basket needs. */
  datatype CachedMarket = CachedMarket(valid: bool, crossed: bool, dependencies: seq<nat>, fee: FeePolicy, needYes: bool, needNo: bool,
                                       yes: seq<DepthWalk.BuyLevel>, no: seq<DepthWalk.BuyLevel>)

  // ------------------------------------------------------------------------
  // Cached depth
  // ------------------------------------------------------------------------

  /** The levels of one side, best first, up to `room` contracts in all. */
  function Capped(levels: seq<Level>, yes: bool, room: nat): seq<DepthWalk.BuyLevel>
    decreases levels
  {
    if levels == [] || room == 0 then []
    else
      var take := Min(levels[0].quantity, room);
      if take == 0 then Capped(levels[1..], yes, room)
      else [DepthWalk.BuyLevel(Bought(levels[0].price, yes), take)] + Capped(levels[1..], yes, room - take)
  }

  function Bought(price: Price, yes: bool): Price {
    if yes then price else PRICE_SCALE - price
  }

  /** Cached depth ascends strictly and is positive. */
  lemma {:induction false} CappedAscends(levels: seq<Level>, yes: bool, room: nat)
    requires Sorted(if yes then Ask else Bid, levels)
    ensures var d := Capped(levels, yes, room);
      && DepthWalk.Ascending(d) && |d| <= |levels| && (forall i :: 0 <= i < |d| ==> d[i].quantity > 0)
      && (levels != [] ==> forall i :: 0 <= i < |d| ==> Bought(levels[0].price, yes) <= d[i].price)
    decreases levels
  {
    if levels != [] && room != 0 {
      var take := Min(levels[0].quantity, room);
      CappedAscends(levels[1..], yes, room - take);
      if |levels| > 1 {
        assert levels[1..][0] == levels[1];
      }
    }
  }

  /** What is collected before a level goes on with what the level offers. */
  lemma CappedUnfolds(levels: seq<Level>, i: nat, yes: bool, room: nat, depth: seq<DepthWalk.BuyLevel>)
    requires i < |levels| && room > 0
    ensures var take := Min(levels[i].quantity, room);
      depth + Capped(levels[i..], yes, room)
      == (if take == 0 then depth else depth + [DepthWalk.BuyLevel(Bought(levels[i].price, yes), take)]) + Capped(levels[i + 1..], yes, room - take)
  {
    assert levels[i..][0] == levels[i] && levels[i..][1..] == levels[i + 1..];
  }

  lemma NothingLeft(levels: seq<Level>, yes: bool, room: nat)
    requires levels == [] || room == 0
    ensures Capped(levels, yes, room) == []
  {
  }

  method Collect(levels: seq<Level>, yes: bool, cap: nat) returns (depth: seq<DepthWalk.BuyLevel>)
    ensures depth == Capped(levels, yes, cap)
  {
    hide Capped;
    depth := [];
    var available, i := 0, 0;
    assert levels[0..] == levels;
    while i < |levels| && available < cap
      invariant i <= |levels| && available <= cap
      invariant Capped(levels, yes, cap) == depth + Capped(levels[i..], yes, cap - available)
    {
      CappedUnfolds(levels, i, yes, cap - available, depth);
      var take := Min(levels[i].quantity, cap - available);
      if take > 0 {
        depth := depth + [DepthWalk.BuyLevel(Bought(levels[i].price, yes), take)];
        available := available + take;
      }
      i := i + 1;
    }
    NothingLeft(levels[i..], yes, cap - available);
  }

  predicate CrossedBook(bids: seq<Level>, asks: seq<Level>) {
    bids != [] && asks != [] && bids[0].price > asks[0].price
  }

  /** A market after its book was updated: valid or not, and crossed or not, with the depth of the
      sides that are needed. */
  function Updated(m: CachedMarket, valid: bool, bids: seq<Level>, asks: seq<Level>, cap: nat): CachedMarket {
    var crossed := valid && CrossedBook(bids, asks);
    var usable := valid && !crossed;
    m.(valid := valid, crossed := crossed,
       yes := if !m.needYes then m.yes else if usable then Capped(asks, true, cap) else [],
       no := if !m.needNo then m.no else if usable then Capped(bids, false, cap) else [])
  }

  method UpdateCache(m: CachedMarket, valid: bool, bids: seq<Level>, asks: seq<Level>, cap: nat) returns (u: CachedMarket)
    ensures u == Updated(m, valid, bids, asks, cap)
  {
    u := m.(valid := valid, crossed := valid && CrossedBook(bids, asks));
    if u.needYes {
      u := u.(yes := []);
      if u.valid && !u.crossed {
        var depth := Collect(asks, true, cap);
        u := u.(yes := depth);
      }
    }
    if u.needNo {
      u := u.(no := []);
      if u.valid && !u.crossed {
        var depth := Collect(bids, false, cap);
        u := u.(no := depth);
      }
    }
  }

  /** A market that can be sized has the depth that sizing accepts. */
  predicate Usable(m: CachedMarket) {
    && ValidFee(m.fee)
    && (m.valid && !m.crossed ==>
          && (m.needYes ==> BasketSizing.ValidLeg(DepthWalk.BuyDepth(m.yes, m.fee)))
          && (m.needNo ==> BasketSizing.ValidLeg(DepthWalk.BuyDepth(m.no, m.fee))))
  }

  lemma UpdatedUsable(m: CachedMarket, valid: bool, bids: seq<Level>, asks: seq<Level>, cap: nat)
    requires ValidFee(m.fee) && Sorted(Bid, bids) && Sorted(Ask, asks) && |bids| <= 10_001 && |asks| <= 10_001
    ensures Usable(Updated(m, valid, bids, asks, cap))
  {
    CappedAscends(asks, true, cap);
    CappedAscends(bids, false, cap);
    hide Capped, Sorted;
  }

  // ------------------------------------------------------------------------
  // What sizing finds
  // ------------------------------------------------------------------------

  /** The first leg of a basket buys YES, the others NO. */
  predicate Shaped(legs: seq<nat>, markets: seq<CachedMarket>) {
    && |legs| == 3 && legs[0] < |markets| && legs[1] < |markets| && legs[2] < |markets|
    && markets[legs[0]].needYes && markets[legs[1]].needNo && markets[legs[2]].needNo
  }

  /** None of the legs is missing or crossed. */
  predicate AllUsable(legs: seq<nat>, markets: seq<CachedMarket>) {
    forall k :: 0 <= k < |legs| && legs[k] < |markets| ==>
      markets[legs[k]].valid && !markets[legs[k]].crossed && Usable(markets[legs[k]])
  }

  function DepthsOf(legs: seq<nat>, markets: seq<CachedMarket>): BasketSizing.Basket
    requires Shaped(legs, markets)
  {
    var x, y, z := markets[legs[0]], markets[legs[1]], markets[legs[2]];
    BasketSizing.Basket(DepthWalk.BuyDepth(x.yes, x.fee), DepthWalk.BuyDepth(y.no, y.fee), DepthWalk.BuyDepth(z.no, z.fee))
  }

  /** Too little depth or cash for one contract, some size above the minimum margin, or none. */
  ghost function Finding(d: BasketSizing.Basket, lim: DepthWalk.SizingLimits): Status
    requires BasketSizing.ValidInput(d, lim)
  {
    if !BasketSizing.Covered(d, BasketSizing.QUANTITY_STEP) then Status.NoDepth
    else if BasketSizing.TotalReserve(BasketSizing.Quote(d, BasketSizing.QUANTITY_STEP)) > lim.available then Unfunded
    else if exists q :: BasketSizing.Candidate(d, lim, q) then Positive
    else Nonpositive
  }

  /** What sizing finds on three usable legs. */
  ghost function Found(legs: seq<nat>, markets: seq<CachedMarket>, lim: DepthWalk.SizingLimits): Status {
    if Shaped(legs, markets) && BasketSizing.ValidInput(DepthsOf(legs, markets), lim) then Finding(DepthsOf(legs, markets), lim)
    else Nonpositive
  }

  lemma LegsAreValid(legs: seq<nat>, markets: seq<CachedMarket>, lim: DepthWalk.SizingLimits)
    requires Shaped(legs, markets) && AllUsable(legs, markets) && BasketSizing.ValidLimits(lim)
    ensures BasketSizing.ValidInput(DepthsOf(legs, markets), lim)
  {
  }

  /** Sizes one basket within the budget of its update: the search is incomplete exactly when it has
      more sizes to evaluate than that. */
  method SizeDepths(d: BasketSizing.Basket, lim: DepthWalk.SizingLimits, budget: nat) returns (status: Option<Status>, used: nat)
    requires BasketSizing.ValidInput(d, lim) && budget > 0
    ensures var sizes, most := BasketSizing.Sizes(d, lim), Min(budget, lim.maxEvaluations);
      used == Min(most, sizes) && status == if sizes > most then None else Some(Finding(d, lim))
  {
    hide BasketSizing.Covered, BasketSizing.Quote, BasketSizing.Candidate, BasketSizing.IsOptimum, BasketSizing.TotalReserve, BasketSizing.SizesFrom;
    var bounded := lim.(maxEvaluations := Min(budget, lim.maxEvaluations));
    var result := BasketSizing.SizeBuyBasket(d, bounded);
    used := result.evaluated;
    if result.status == DepthWalk.SearchBudgetExceeded || result.status == DepthWalk.InvalidInput || result.status == DepthWalk.ArithmeticError {
      return None, used;
    }
    AnswerIsFinding(d, lim, bounded, result);
    status := Some(if result.quote.Some? then Positive
                   else if result.status == DepthWalk.NoDepth then Status.NoDepth
                   else if result.status == DepthWalk.InsufficientCash then Unfunded
                   else Nonpositive);
  }

  lemma AnswerIsFinding(d: BasketSizing.Basket, lim: DepthWalk.SizingLimits, bounded: DepthWalk.SizingLimits, r: BasketSizing.BasketSizingResult)
    requires BasketSizing.ValidInput(d, lim) && bounded == lim.(maxEvaluations := bounded.maxEvaluations) && BasketSizing.ValidInput(d, bounded)
    requires BasketSizing.Answer(d, bounded, r) && r.status != DepthWalk.SearchBudgetExceeded
    ensures Finding(d, lim) ==
      if r.quote.Some? then Positive
      else if r.status == DepthWalk.NoDepth then Status.NoDepth
      else if r.status == DepthWalk.InsufficientCash then Unfunded
      else Nonpositive
  {
    hide BasketSizing.Covered, BasketSizing.Quote, BasketSizing.TotalReserve;
    assert forall q :: BasketSizing.Candidate(d, lim, q) <==> BasketSizing.Candidate(d, bounded, q);
    if r.quote.Some? {
      var q := r.quote.value.quantity;
      assert BasketSizing.Candidate(d, bounded, q);
      BasketSizing.FundingMonotone(d, BasketSizing.QUANTITY_STEP, q);
    }
  }

  /** How many sizes it evaluates on them. */
  ghost function SizesOf(legs: seq<nat>, markets: seq<CachedMarket>, lim: DepthWalk.SizingLimits): nat {
    if Shaped(legs, markets) && BasketSizing.ValidInput(DepthsOf(legs, markets), lim) then BasketSizing.Sizes(DepthsOf(legs, markets), lim) else 0
  }

  lemma SizesBounded(legs: seq<nat>, markets: seq<CachedMarket>, lim: DepthWalk.SizingLimits)
    ensures BasketSizing.ValidLimits(lim) ==> SizesOf(legs, markets, lim) <= lim.cap / BasketSizing.QUANTITY_STEP
  {
    hide BasketSizing.SizesFrom, BasketSizing.ValidLeg, DepthsOf, Shaped;
    if Shaped(legs, markets) && BasketSizing.ValidInput(DepthsOf(legs, markets), lim) {
      BasketSizing.SizesMeaning(DepthsOf(legs, markets), lim, BasketSizing.QUANTITY_STEP);
    }
  }

  // ------------------------------------------------------------------------
  // The status of a basket
  // ------------------------------------------------------------------------

  /** The first leg whose market is missing or crossed. */
  function FirstBad(legs: seq<nat>, markets: seq<CachedMarket>): (i: nat)
    ensures i <= |legs|
    ensures forall j :: 0 <= j < i ==> !(legs[j] < |markets| && (!markets[legs[j]].valid || markets[legs[j]].crossed))
    ensures i < |legs| ==> legs[i] < |markets| && (!markets[legs[i]].valid || markets[legs[i]].crossed)
  {
    if legs == [] then 0
    else if legs[0] < |markets| && (!markets[legs[0]].valid || markets[legs[0]].crossed) then 0
    else 1 + FirstBad(legs[1..], markets)
  }

  /** The status that an evaluation gives: a missing or crossed leg first. */
  function StatusOf(legs: seq<nat>, markets: seq<CachedMarket>, found: Status): Status {
    var i := FirstBad(legs, markets);
    if i < |legs| && legs[i] < |markets| then (if !markets[legs[i]].valid then Unavailable else Crossed) else found
  }

  /** The status of a basket on the cached markets: a missing or crossed leg first, and otherwise
      what sizing finds. */
  ghost function Assessed(legs: seq<nat>, markets: seq<CachedMarket>, lim: DepthWalk.SizingLimits): Status {
    StatusOf(legs, markets, Found(legs, markets, lim))
  }

  /** With no leg missing or crossed, sizing decides. */
  lemma AllLegsUsable(legs: seq<nat>, markets: seq<CachedMarket>, lim: DepthWalk.SizingLimits)
    requires Shaped(legs, markets) && FirstBad(legs, markets) >= |legs| && BasketSizing.ValidLimits(lim)
    requires forall m :: 0 <= m < |markets| ==> Usable(markets[m])
    ensures BasketSizing.ValidInput(DepthsOf(legs, markets), lim) && Found(legs, markets, lim) == Finding(DepthsOf(legs, markets), lim)
    ensures SizesOf(legs, markets, lim) == BasketSizing.Sizes(DepthsOf(legs, markets), lim)
  {
    hide Usable, Finding, BasketSizing.SizesFrom;
    LegsAreValid(legs, markets, lim);
  }
}
