/** What the basket observation (src/session/basket_observation.cpp) makes of books and records, in
    plain terms: crossed markets, the cached depth, the status of a basket, its episodes, and what a
    record fails on. */
module ObservationRules {
  import opened FixedPoint
  import opened ExecutionCost
  import opened OrderBooks
  import opened ObservedDepths
  import opened ObservedBudgets
  import opened BasketObservation
  import BasketSizing
  import DepthWalk
  import LiquidityWalk

  // ------------------------------------------------------------------------
  // Cached markets
  // ------------------------------------------------------------------------

  /** A market is crossed exactly when some bid of its book is above some ask. */
  lemma CrossedSpelledOut(bids: seq<Level>, asks: seq<Level>)
    requires Sorted(Bid, bids) && Sorted(Ask, asks)
    ensures CrossedBook(bids, asks) <==> exists i, j :: 0 <= i < |bids| && 0 <= j < |asks| && bids[i].price > asks[j].price
  {
    if i, j :| 0 <= i < |bids| && 0 <= j < |asks| && bids[i].price > asks[j].price {
      assert bids[0].price >= bids[i].price && asks[0].price <= asks[j].price;
    }
  }

  /** Collecting x_i at level i: within the level and the cap, and the whole level before a later one
      is used and while there is room. */
  ghost predicate Collects(levels: seq<Level>, room: nat, xs: seq<nat>) {
    && |xs| == |levels| && LiquidityWalk.Total(xs) <= room
    && forall i :: 0 <= i < |xs| ==> xs[i] <= levels[i].quantity && (Goes(xs, i, room) ==> xs[i] == levels[i].quantity)
  }

  ghost predicate Goes(xs: seq<nat>, i: nat, room: nat) {
    LiquidityWalk.Total(xs) < room || LiquidityWalk.TakenAfter(xs, i)
  }

  /** The levels used, at what buying the outcome costs there: an ask's price for YES, and what is
      left of a dollar above a bid's price for NO. */
  function LevelsUsed(levels: seq<Level>, yes: bool, xs: seq<nat>): seq<DepthWalk.BuyLevel>
    requires |xs| == |levels| && forall i :: 0 <= i < |xs| ==> xs[i] <= levels[i].quantity
    decreases levels
  {
    if levels == [] then []
    else
      var price := if yes then levels[0].price else 10_000 - levels[0].price;
      (if xs[0] == 0 then [] else [DepthWalk.BuyLevel(price, xs[0])]) + LevelsUsed(levels[1..], yes, xs[1..])
  }

  lemma {:induction false} CappedSpelledOut(levels: seq<Level>, yes: bool, room: nat) returns (xs: seq<nat>)
    ensures |xs| == |levels| && Collects(levels, room, xs) && Capped(levels, yes, room) == LevelsUsed(levels, yes, xs)
    decreases levels
  {
    hide *;
    if levels == [] || room == 0 {
      xs := NothingUsed(levels, yes, room);
    } else {
      var x := if levels[0].quantity <= room then levels[0].quantity else room;
      CappedFirst(levels, yes, room);
      var rest := CappedSpelledOut(levels[1..], yes, room - x);
      xs := [x] + rest;
      CollectsNext(levels, yes, room, x, rest);
    }
  }

  lemma NothingUsed(levels: seq<Level>, yes: bool, room: nat) returns (xs: seq<nat>)
    requires levels == [] || room == 0
    ensures |xs| == |levels| && Collects(levels, room, xs) && Capped(levels, yes, room) == LevelsUsed(levels, yes, xs)
  {
    xs := LiquidityWalk.Nothing(|levels|);
    NoneUsed(levels, yes);
    hide LevelsUsed, LiquidityWalk.Nothing, LiquidityWalk.Total;
    forall i | 0 <= i < |xs| ensures !LiquidityWalk.TakenAfter(xs, i) {
    }
  }

  lemma {:induction false} NoneUsed(levels: seq<Level>, yes: bool)
    ensures LevelsUsed(levels, yes, LiquidityWalk.Nothing(|levels|)) == [] && LiquidityWalk.Total(LiquidityWalk.Nothing(|levels|)) == 0
    decreases levels
  {
    if levels != [] {
      assert LiquidityWalk.Nothing(|levels|)[1..] == LiquidityWalk.Nothing(|levels| - 1);
      NoneUsed(levels[1..], yes);
    }
  }

  lemma CappedFirst(levels: seq<Level>, yes: bool, room: nat)
    requires levels != [] && room > 0
    ensures var x := if levels[0].quantity <= room then levels[0].quantity else room;
      && 0 <= x <= room
      && Capped(levels, yes, room)
         == (if x == 0 then [] else [DepthWalk.BuyLevel(if yes then levels[0].price else 10_000 - levels[0].price, x)]) + Capped(levels[1..], yes, room - x)
  {
  }

  lemma CollectsNext(levels: seq<Level>, yes: bool, room: nat, x: nat, rest: seq<nat>)
    requires levels != [] && x == (if levels[0].quantity <= room then levels[0].quantity else room)
    requires |rest| == |levels[1..]| && Collects(levels[1..], room - x, rest)
    ensures Collects(levels, room, [x] + rest)
    ensures LevelsUsed(levels, yes, [x] + rest)
      == (if x == 0 then [] else [DepthWalk.BuyLevel(if yes then levels[0].price else 10_000 - levels[0].price, x)]) + LevelsUsed(levels[1..], yes, rest)
  {
    var xs := [x] + rest;
    assert xs[1..] == rest;
    assert LiquidityWalk.Total(xs) == x + LiquidityWalk.Total(rest);
    hide LevelsUsed, LiquidityWalk.Total;
    forall i | 0 <= i < |xs| && Goes(xs, i, room) ensures xs[i] == levels[i].quantity {
      if LiquidityWalk.TakenAfter(xs, i) {
        var j :| i < j < |xs| && xs[j] > 0;
        LiquidityWalk.PartOfTotal(rest, j - 1);
        assert i > 0 ==> LiquidityWalk.TakenAfter(rest, i - 1);
      }
      assert i > 0 ==> Goes(rest, i - 1, room - x) && xs[i] == rest[i - 1] && levels[i] == levels[1..][i - 1];
    }
    forall i | 0 <= i < |xs| ensures xs[i] <= levels[i].quantity {
      assert i > 0 ==> xs[i] == rest[i - 1] && levels[i] == levels[1..][i - 1];
    }
  }

  /** A valid book that is not crossed is cached on the sides that some basket needs, YES from its
      asks and NO from its bids; another one offers nothing. */
  lemma UpdatedSpelledOut(m: CachedMarket, valid: bool, bids: seq<Level>, asks: seq<Level>, cap: nat) returns (xs: seq<nat>, ys: seq<nat>)
    requires Sorted(Bid, bids) && Sorted(Ask, asks)
    ensures |xs| == |asks| && |ys| == |bids| && Collects(asks, cap, xs) && Collects(bids, cap, ys)
    ensures var u := Updated(m, valid, bids, asks, cap);
      && u.valid == valid && (u.crossed <==> valid && exists i, j :: 0 <= i < |bids| && 0 <= j < |asks| && bids[i].price > asks[j].price)
      && (m.needYes ==> u.yes == if valid && !u.crossed then LevelsUsed(asks, true, xs) else [])
      && (m.needNo ==> u.no == if valid && !u.crossed then LevelsUsed(bids, false, ys) else [])
      && u.dependencies == m.dependencies && u.fee == m.fee && u.needYes == m.needYes && u.needNo == m.needNo
  {
    CrossedSpelledOut(bids, asks);
    xs := CappedSpelledOut(asks, true, cap);
    ys := CappedSpelledOut(bids, false, cap);
    hide CrossedBook, Capped, LevelsUsed, Collects, Sorted;
  }

  /** The cache after a record: a dropped connection leaves no market valid; a record on a market's
      book makes that market what its book is. */
  lemma RecachedSpelledOut(f: Frame, dropped: bool, indexes: map<nat, nat>, markets: seq<CachedMarket>, cap: nat, k: nat)
    requires k < |markets|
    ensures var after, concerned := Recached(f, dropped, indexes, markets, cap), f.connected && f.market.Some? && f.market.value in indexes && indexes[f.market.value] == k;
      && |after| == |markets|
      && after[k] == if concerned && f.applied then Updated(markets[k], f.bookValid, f.bids, f.asks, cap)
                     else if (concerned && !f.bookValid) || dropped then markets[k].(valid := false)
                     else markets[k]
  {
    hide Capped, CrossedBook;
  }

  // ------------------------------------------------------------------------
  // Statuses
  // ------------------------------------------------------------------------

  /** The first missing or crossed leg gives the status; and otherwise one whole contract that the
      legs do not offer, one that the cash does not cover, or a size above the minimum margin. */
  lemma AssessedSpelledOut(legs: seq<nat>, markets: seq<CachedMarket>, lim: DepthWalk.SizingLimits)
    requires Shaped(legs, markets) && BasketSizing.ValidLimits(lim) && forall m :: 0 <= m < |markets| ==> Usable(markets[m])
    ensures var x, y, z, s := markets[legs[0]], markets[legs[1]], markets[legs[2]], Assessed(legs, markets, lim);
      if !x.valid then s == Unavailable else if x.crossed then s == Crossed
      else if !y.valid then s == Unavailable else if y.crossed then s == Crossed
      else if !z.valid then s == Unavailable else if z.crossed then s == Crossed
      else FoundIs(BasketSizing.Basket(DepthWalk.BuyDepth(x.yes, x.fee), DepthWalk.BuyDepth(y.no, y.fee), DepthWalk.BuyDepth(z.no, z.fee)), lim, s)
  {
    ThreeLegs(legs, markets);
    if FirstBad(legs, markets) >= 3 {
      AllLegsUsable(legs, markets, lim);
      FindingSpelledOut(DepthsOf(legs, markets), lim);
    }
    hide FirstBad, Usable, Finding, Found, FoundIs, BasketSizing.ValidInput, BasketSizing.ValidLimits;
  }

  ghost predicate FoundIs(d: BasketSizing.Basket, lim: DepthWalk.SizingLimits, s: Status) {
    && s in {Status.NoDepth, Unfunded, Positive, Nonpositive}
    && (s == Status.NoDepth <==> forall x, y, z :: !BasketSizing.Legs(d, 100, x, y, z))
    && (s == Unfunded <==> exists x, y, z :: BasketSizing.Legs(d, 100, x, y, z) && x.reservation + y.reservation + z.reservation > lim.available)
    && (s == Positive <==> exists q: nat, x, y, z :: BasketSizing.Rival(d, lim, q, x, y, z))
  }

  lemma ThreeLegs(legs: seq<nat>, markets: seq<CachedMarket>)
    requires Shaped(legs, markets)
    ensures var x, y, z := markets[legs[0]], markets[legs[1]], markets[legs[2]];
      FirstBad(legs, markets)
      == if !x.valid || x.crossed then 0 else if !y.valid || y.crossed then 1 else if !z.valid || z.crossed then 2 else 3
  {
    assert legs[1..][1..] == [legs[2]] && legs[1..][1..][1..] == [];
  }

  lemma FindingSpelledOut(d: BasketSizing.Basket, lim: DepthWalk.SizingLimits)
    requires BasketSizing.ValidInput(d, lim)
    ensures FoundIs(d, lim, Finding(d, lim))
  {
    hide BasketSizing.Covered, BasketSizing.Quote, BasketSizing.Candidate, BasketSizing.TotalReserve, BasketSizing.Legs, BasketSizing.Rival;
    OneContract(d, lim);
    if q :| BasketSizing.Candidate(d, lim, q) {
      CandidateIsFunded(d, lim, q);
      assert q >= 0;
      BasketSizing.CandidateIsRival(d, lim, q);
    }
    if q: nat, x, y, z :| BasketSizing.Rival(d, lim, q, x, y, z) {
      BasketSizing.CandidateIsRival(d, lim, q);
      CandidateIsFunded(d, lim, q);
    }
  }

  lemma OneContract(d: BasketSizing.Basket, lim: DepthWalk.SizingLimits)
    requires BasketSizing.ValidInput(d, lim)
    ensures BasketSizing.Covered(d, 100) <==> exists x, y, z :: BasketSizing.Legs(d, 100, x, y, z)
    ensures BasketSizing.Covered(d, 100) && BasketSizing.TotalReserve(BasketSizing.Quote(d, 100)) > lim.available <==>
      exists x, y, z :: BasketSizing.Legs(d, 100, x, y, z) && x.reservation + y.reservation + z.reservation > lim.available
  {
    BasketSizing.LegsSpelledOut(d, 100);
    hide BasketSizing.Covered, BasketSizing.Legs, DepthWalk.LegOf;
  }

  lemma CandidateIsFunded(d: BasketSizing.Basket, lim: DepthWalk.SizingLimits, q: int)
    requires BasketSizing.ValidInput(d, lim) && BasketSizing.Candidate(d, lim, q)
    ensures q >= 0 && BasketSizing.Covered(d, 100) && BasketSizing.TotalReserve(BasketSizing.Quote(d, 100)) <= lim.available
  {
    BasketSizing.FundingMonotone(d, 100, q);
    hide BasketSizing.Covered, BasketSizing.Quote, BasketSizing.TotalReserve;
  }

  // ------------------------------------------------------------------------
  // Episodes
  // ------------------------------------------------------------------------

  /** The count of a status, in the order of AccountedSpelledOut. */
  function CountOf(b: Basket, s: Status): nat
    requires Tallied(b)
  {
    match s
    case Unavailable => b.counts[0]
    case Crossed => b.counts[1]
    case Expired => b.counts[2]
    case NoDepth => b.counts[3]
    case Unfunded => b.counts[4]
    case Nonpositive => b.counts[5]
    case Positive => b.counts[6]
  }

  /** A basket that has not been observed is unavailable, without any count, time or episode. */
  lemma NewSpelledOut(markets: seq<nat>)
    ensures var b := NewBasket(markets);
      && Tallied(b) && b.markets == markets && b.status == Unavailable && !b.active && !b.eligibleBefore
      && b.episodes == b.closedEpisodes == b.leftCensored == b.rightCensored == 0
      && forall i :: 0 <= i < 7 ==> b.durations[i] == 0 && b.counts[i] == 0
  {
  }

  /** An evaluation opens an episode on the first positive finding, censored on the left unless the
      basket has been evaluated since it was last dropped, and closes one on any other finding. */
  lemma EvaluatedSpelledOut(b: Basket, found: Status, time: int)
    requires Tallied(b)
    ensures var c, opens, closes := Evaluated(b, found, time), found == Positive && !b.active, found != Positive && b.active;
      && Tallied(c) && c.status == found && c.since == time && c.eligibleBefore && c.markets == b.markets
      && (c.active <==> found == Positive)
      && c.episodes == b.episodes + (if opens then 1 else 0) && c.closedEpisodes == b.closedEpisodes + (if closes then 1 else 0)
      && c.leftCensored == b.leftCensored + (if opens && !b.eligibleBefore then 1 else 0) && c.rightCensored == b.rightCensored
      && (opens ==> c.openedAt == time && c.openingLeftCensored == !b.eligibleBefore)
      && (!opens ==> c.openedAt == b.openedAt && c.openingLeftCensored == b.openingLeftCensored)
      && forall s: Status :: CountOf(c, s) == CountOf(b, s) + (if s == found then 1 else 0)
  {
  }

  /** Dropping a basket closes its episode, censored on the right. */
  lemma UnavailableSpelledOut(b: Basket, reason: Status, time: int)
    requires Tallied(b)
    ensures var c := MadeUnavailable(b, reason, time);
      && Tallied(c) && c.status == reason && c.since == time && !c.eligibleBefore && !c.active && c.markets == b.markets
      && c.episodes == b.episodes && c.leftCensored == b.leftCensored && c.openedAt == b.openedAt && c.openingLeftCensored == b.openingLeftCensored
      && c.closedEpisodes == b.closedEpisodes + (if b.active then 1 else 0) && c.rightCensored == b.rightCensored + (if b.active then 1 else 0)
      && forall s: Status :: CountOf(c, s) == CountOf(b, s) + (if s == reason then 1 else 0)
  {
  }

  /** What a record makes of a basket: one that depends on the record's market is evaluated after an
      applied update and dropped by one that left the book invalid; another connection drops it
      otherwise. */
  lemma FollowSpelledOut(f: Frame, dropped: bool, indexes: map<nat, nat>, markets: seq<CachedMarket>, lim: DepthWalk.SizingLimits,
                         i: nat, legs: seq<nat>, before: Status, after: Status)
    requires Follow(f, dropped, indexes, markets, lim, i, legs, before, after)
    ensures var depends := f.connected && f.market.Some? && f.market.value in indexes && indexes[f.market.value] < |markets|
        && i in markets[indexes[f.market.value]].dependencies;
      after == if depends && f.applied then Assessed(legs, Recached(f, dropped, indexes, markets, lim.cap), lim)
               else if depends && !f.bookValid then Unavailable
               else if dropped then Unavailable
               else before
  {
    hide Assessed, Recached;
  }

  /** What a record fails on: a clock set back, too many events, a missing or early wall time, a
      deadline beyond the clock, a market outside the cohort, or its market's update. */
  lemma RecordFaultSpelledOut(o: Observation, f: Frame)
    requires Wired(o.markets, o.indexes, o.baskets)
    ensures var notices, full := !o.expired && o.deadline.Some? && o.deadline.value <= f.time, o.events + o.active > o.maximumEvents;
      var dropped := !f.connected || f.generation != o.generation;
      o.RecordFault(f)
      == if f.time < 0 || (o.lastTime.Some? && f.time < o.lastTime.value) then Some(ClockRegression)
         else if notices && full then Some(EventBudget)
         else if o.finished || f.wall.None? || f.wall.value < o.validFrom then Some(WallBinding)
         else if o.expired || notices then None
         else if f.wall.value >= o.validUntil then (if full then Some(EventBudget) else None)
         else if f.time + o.validUntil - f.wall.value > 9_223_372_036_854_775_807 then Some(DeadlineOverflow)
         else if dropped && full then Some(EventBudget)
         else if !f.connected || f.market.None? then None
         else if f.market.value !in o.indexes then Some(OutsideCohort)
         else if f.applied || !f.bookValid then
           UpdateFault(Update(LegsOf(o.baskets), Recached(f, dropped, o.indexes, o.markets, o.limits.cap), o.limits, o.maximumEvents, !f.applied),
                       Meter(if dropped then seq(|o.baskets|, _ => false) else Activity(o.baskets), o.totalBudget, if dropped then o.events + o.active else o.events),
                       o.markets[o.indexes[f.market.value]].dependencies)
         else None
  {
    hide UpdateFault, Recached, Shaped, Usable, LegsOf;
  }
}
