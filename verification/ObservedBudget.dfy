/** What the update of one market uses up (src/session/basket_observation.cpp): the evaluations of
    its baskets, and the events of the episodes that it opens and closes. */
module ObservedBudgets {
  import opened FixedPoint
  import opened ObservedDepths
  import BasketSizing
  import DepthWalk

  datatype Fault = ClockRegression | WallBinding | DeadlineOverflow | OutsideCohort | EventBudget | UpdateBudget | SizingIncomplete
    | IntervalRegression | UnionRegression

  /** The legs of every basket, the markets as cached, and whether the baskets are dropped. */
  datatype Update = Update(legs: seq<seq<nat>>, markets: seq<CachedMarket>, limits: DepthWalk.SizingLimits, maximumEvents: nat, drop: bool)

  /** Which baskets are active, and the evaluations left and the events emitted so far. */
  datatype Meter = Meter(active: seq<bool>, budget: int, events: int)

  predicate Known(u: Update, m: Meter, i: nat) {
    i < |u.legs| == |m.active|
  }

  predicate AllKnown(u: Update, m: Meter, dependencies: seq<nat>) {
    |u.legs| == |m.active| && forall k :: 0 <= k < |dependencies| ==> dependencies[k] < |u.legs|
  }

  /** The status that the update gives to a basket. */
  ghost function StatusIn(u: Update, i: nat): Status
    requires i < |u.legs|
  {
    if u.drop then Unavailable else Assessed(u.legs[i], u.markets, u.limits)
  }

  /** No leg is missing or crossed: the basket is sized. */
  predicate Sized(u: Update, i: nat)
    requires i < |u.legs|
  {
    !u.drop && FirstBad(u.legs[i], u.markets) >= |u.legs[i]|
  }

  ghost function Cost(u: Update, i: nat): nat
    requires i < |u.legs|
  {
    if Sized(u, i) then SizesOf(u.legs[i], u.markets, u.limits) else 0
  }

  /** An episode opens or closes. */
  ghost predicate Flips(u: Update, m: Meter, i: nat)
    requires Known(u, m, i)
  {
    m.active[i] != (StatusIn(u, i) == Positive)
  }

  ghost function FaultAt(u: Update, m: Meter, i: nat): Option<Fault>
    requires Known(u, m, i)
  {
    if Sized(u, i) && m.budget == 0 then Some(UpdateBudget)
    else if Sized(u, i) && Cost(u, i) > Min(m.budget, u.limits.maxEvaluations) then Some(SizingIncomplete)
    else if Flips(u, m, i) && m.events == u.maximumEvents then Some(EventBudget)
    else None
  }

  ghost function Metered(u: Update, m: Meter, i: nat): Meter
    requires Known(u, m, i)
  {
    Meter(m.active[i := StatusIn(u, i) == Positive], m.budget - Cost(u, i), m.events + (if Flips(u, m, i) then 1 else 0))
  }

  /** A basket that is dropped, or has a missing or crossed leg, only needs the event of its episode. */
  lemma FaultUnfolds(u: Update, m: Meter, i: nat)
    requires Known(u, m, i)
    ensures var legs := u.legs[i];
      if u.drop || FirstBad(legs, u.markets) < |legs| then
        && FaultAt(u, m, i) == (if m.active[i] && m.events == u.maximumEvents then Some(EventBudget) else None)
        && Metered(u, m, i) == Meter(m.active[i := false], m.budget, m.events + (if m.active[i] then 1 else 0))
      else
        var positive := Found(legs, u.markets, u.limits) == Positive;
        && FaultAt(u, m, i)
          == (if m.budget == 0 then Some(UpdateBudget)
              else if SizesOf(legs, u.markets, u.limits) > Min(m.budget, u.limits.maxEvaluations) then Some(SizingIncomplete)
              else if m.active[i] != positive && m.events == u.maximumEvents then Some(EventBudget)
              else None)
        && Metered(u, m, i)
          == Meter(m.active[i := positive], m.budget - SizesOf(legs, u.markets, u.limits), m.events + (if m.active[i] != positive then 1 else 0))
  {
    hide Found, SizesOf;
  }

  /** The first fault of the update of a market's baskets, one after another. */
  ghost function UpdateFault(u: Update, m: Meter, dependencies: seq<nat>): Option<Fault>
    requires AllKnown(u, m, dependencies)
    decreases dependencies
  {
    if dependencies == [] then None
    else if FaultAt(u, m, dependencies[0]).Some? then FaultAt(u, m, dependencies[0])
    else UpdateFault(u, Metered(u, m, dependencies[0]), dependencies[1..])
  }

  /** What is left when none of them fails. */
  ghost function AllMetered(u: Update, m: Meter, dependencies: seq<nat>): Meter
    requires AllKnown(u, m, dependencies)
    decreases dependencies
  {
    if dependencies == [] then m else AllMetered(u, Metered(u, m, dependencies[0]), dependencies[1..])
  }

  // ------------------------------------------------------------------------
  // When an update succeeds
  // ------------------------------------------------------------------------

  ghost function Spent(u: Update, dependencies: seq<nat>): nat
    requires forall k :: 0 <= k < |dependencies| ==> dependencies[k] < |u.legs|
    decreases dependencies
  {
    if dependencies == [] then 0 else Cost(u, dependencies[0]) + Spent(u, dependencies[1..])
  }

  /** The k-th basket is sized within what the ones before it leave. */
  ghost predicate Afforded(u: Update, budget: int, dependencies: seq<nat>, k: nat)
    requires k < |dependencies| && forall k :: 0 <= k < |dependencies| ==> dependencies[k] < |u.legs|
  {
    var left := budget - Spent(u, dependencies[..k]);
    Sized(u, dependencies[k]) ==> left > 0 && Cost(u, dependencies[k]) <= Min(left, u.limits.maxEvaluations)
  }

  ghost predicate Affordable(u: Update, budget: int, dependencies: seq<nat>)
    requires forall k :: 0 <= k < |dependencies| ==> dependencies[k] < |u.legs|
  {
    forall k: nat :: k < |dependencies| ==> Afforded(u, budget, dependencies, k)
  }

  /** The baskets whose episode the update opens or closes, each once. */
  ghost function Flipped(u: Update, m: Meter, dependencies: seq<nat>): set<nat>
    requires AllKnown(u, m, dependencies)
  {
    set i | i in dependencies && Flips(u, m, i)
  }

  /** An update succeeds exactly when its budget covers every basket that it sizes and the events
      of all episodes that it opens and closes fit; with a sufficient budget only those can fail. */
  lemma {:induction false} UpdateFaultMeaning(u: Update, m: Meter, dependencies: seq<nat>)
    requires AllKnown(u, m, dependencies) && m.budget >= 0 && m.events <= u.maximumEvents
    ensures UpdateFault(u, m, dependencies) == None <==>
      Affordable(u, m.budget, dependencies) && m.events + |Flipped(u, m, dependencies)| <= u.maximumEvents
    ensures UpdateFault(u, m, dependencies) == None ==>
      AllMetered(u, m, dependencies).events == m.events + |Flipped(u, m, dependencies)|
    ensures Affordable(u, m.budget, dependencies) && UpdateFault(u, m, dependencies).Some? ==>
      UpdateFault(u, m, dependencies) == Some(EventBudget)
    decreases dependencies
  {
    hide StatusIn, Sized, Cost;
    if dependencies != [] {
      var i, rest := dependencies[0], dependencies[1..];
      AffordableNext(u, m.budget, dependencies);
      FlippedNext(u, m, dependencies);
      if FaultAt(u, m, i).None? {
        NotSizedCostsNothing(u, i);
        UpdateFaultMeaning(u, Metered(u, m, i), rest);
      }
    }
  }

  lemma NotSizedCostsNothing(u: Update, i: nat)
    requires i < |u.legs|
    ensures !Sized(u, i) ==> Cost(u, i) == 0
  {
  }

  lemma AffordableNext(u: Update, budget: int, dependencies: seq<nat>)
    requires dependencies != [] && forall k :: 0 <= k < |dependencies| ==> dependencies[k] < |u.legs|
    ensures var i := dependencies[0];
      Affordable(u, budget, dependencies) <==>
        (Sized(u, i) ==> budget > 0 && Cost(u, i) <= Min(budget, u.limits.maxEvaluations)) && Affordable(u, budget - Cost(u, i), dependencies[1..])
  {
    hide Afforded, Sized, Cost;
    var i, rest := dependencies[0], dependencies[1..];
    var left := budget - Cost(u, i);
    FirstAfforded(u, budget, dependencies);
    if Affordable(u, left, rest) && Afforded(u, budget, dependencies, 0) {
      forall k: nat | k < |dependencies| ensures Afforded(u, budget, dependencies, k) {
        if k > 0 {
          LaterAfforded(u, budget, dependencies, k - 1);
          assert Afforded(u, left, rest, k - 1);
        }
      }
    }
    if Affordable(u, budget, dependencies) {
      forall k: nat | k < |rest| ensures Afforded(u, left, rest, k) {
        LaterAfforded(u, budget, dependencies, k);
        assert Afforded(u, budget, dependencies, k + 1);
      }
      assert Afforded(u, budget, dependencies, 0);
    }
  }

  lemma FirstAfforded(u: Update, budget: int, dependencies: seq<nat>)
    requires dependencies != [] && forall k :: 0 <= k < |dependencies| ==> dependencies[k] < |u.legs|
    ensures Afforded(u, budget, dependencies, 0)
      <==> (Sized(u, dependencies[0]) ==> budget > 0 && Cost(u, dependencies[0]) <= Min(budget, u.limits.maxEvaluations))
  {
    assert dependencies[..0] == [];
  }

  lemma LaterAfforded(u: Update, budget: int, dependencies: seq<nat>, k: nat)
    requires k + 1 < |dependencies| && forall k :: 0 <= k < |dependencies| ==> dependencies[k] < |u.legs|
    ensures Afforded(u, budget, dependencies, k + 1) <==> Afforded(u, budget - Cost(u, dependencies[0]), dependencies[1..], k)
  {
    hide Sized, Cost;
    assert dependencies[..k + 1][1..] == dependencies[1..][..k];
  }

  lemma FlippedNext(u: Update, m: Meter, dependencies: seq<nat>)
    requires AllKnown(u, m, dependencies) && dependencies != []
    ensures var i := dependencies[0];
      |Flipped(u, m, dependencies)| == (if Flips(u, m, i) then 1 else 0) + |Flipped(u, Metered(u, m, i), dependencies[1..])|
  {
    hide StatusIn, Cost;
    var i, rest := dependencies[0], dependencies[1..];
    var later := Flipped(u, Metered(u, m, i), rest);
    assert i !in later;
    assert forall j :: j in dependencies <==> j == i || j in rest;
    assert Flipped(u, m, dependencies) == if Flips(u, m, i) then {i} + later else later;
  }

  lemma {:induction false} UpdateFaultKinds(u: Update, m: Meter, dependencies: seq<nat>)
    requires AllKnown(u, m, dependencies)
    ensures UpdateFault(u, m, dependencies) in {None, Some(UpdateBudget), Some(SizingIncomplete), Some(EventBudget)}
    decreases dependencies
  {
    if dependencies != [] {
      hide StatusIn, Sized, Cost;
      UpdateFaultKinds(u, Metered(u, m, dependencies[0]), dependencies[1..]);
    }
  }

  lemma DroppingIsFree(u: Update, budget: int, dependencies: seq<nat>)
    requires u.drop && forall k :: 0 <= k < |dependencies| ==> dependencies[k] < |u.legs|
    ensures Affordable(u, budget, dependencies)
  {
    hide FirstBad, SizesOf, Spent;
  }

  /** A budget of all sizes for every basket is enough. */
  lemma EnoughBudget(u: Update, budget: int, dependencies: seq<nat>)
    requires forall k :: 0 <= k < |dependencies| ==> dependencies[k] < |u.legs|
    requires BasketSizing.ValidLimits(u.limits) && u.limits.maxEvaluations >= u.limits.cap / BasketSizing.QUANTITY_STEP
    requires budget >= |dependencies| * (u.limits.cap / BasketSizing.QUANTITY_STEP)
    ensures Affordable(u, budget, dependencies)
  {
    hide Sized;
    var n := u.limits.cap / BasketSizing.QUANTITY_STEP;
    forall k: nat | k < |dependencies| ensures Afforded(u, budget, dependencies, k) {
      SpentBounded(u, dependencies[..k], n);
      SizesBounded(u.legs[dependencies[k]], u.markets, u.limits);
      MulMonotone(k + 1, |dependencies|, n);
      Distribute(k, 1, n);
    }
  }

  lemma {:induction false} SpentBounded(u: Update, dependencies: seq<nat>, n: nat)
    requires forall k :: 0 <= k < |dependencies| ==> dependencies[k] < |u.legs|
    requires BasketSizing.ValidLimits(u.limits) && n == u.limits.cap / BasketSizing.QUANTITY_STEP
    ensures Spent(u, dependencies) <= |dependencies| * n
    decreases dependencies
  {
    if dependencies != [] {
      hide Sized, SizesOf;
      SizesBounded(u.legs[dependencies[0]], u.markets, u.limits);
      SpentBounded(u, dependencies[1..], n);
      Distribute(|dependencies| - 1, 1, n);
    }
  }
}
