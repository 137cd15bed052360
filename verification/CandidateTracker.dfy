/** The index of live top-of-book candidates (src/opportunity/candidate_tracker.cpp): after
    every market transition it re-evaluates only the entries of one market, and still agrees
    with evaluating all of them afresh. */
module CandidateTrackers {
  import opened FixedPoint
  import opened Contracts
  import opened OrderBooks
  import opened MarketStates

  datatype CandidateId = CandidateId(constraintId: nat, first: PayoffLeg, second: PayoffLeg)

  datatype CandidateQuote = CandidateQuote(first: Price, second: Price, quantity: Quantity, cost: int, payout: int, margin: int)

  datatype Reason = Disconnected | BookUnavailable | MissingQuote | NonPositiveMargin | ArithmeticOverflow

  datatype Evaluation = Quoted(quote: CandidateQuote) | Invalid(reason: Reason)

  // ------------------------------------------------------------------------
  // Quotes
  // ------------------------------------------------------------------------

  function BestBid(b: Book): Option<Price> {
    var v := Visited(b, Bid);
    if v == [] then None else Some(v[0].price)
  }

  function BestAsk(b: Book): Option<Price> {
    var v := Visited(b, Ask);
    if v == [] then None else Some(v[0].price)
  }

  function QuantityAt(b: Book, side: Side, price: Price): Quantity {
    if b.state != Valid then 0 else Offered(SideOf(b, side), price)
  }

  datatype LegQuote = LegPrice(price: Price, quantity: Quantity) | LegInvalid(reason: Reason)

  function SideBought(leg: PayoffLeg): Side {
    if leg.yes then Ask else Bid
  }

  /** The top of the side that buying one leg consumes. */
  function QuoteLeg(leg: PayoffLeg, v: Market): LegQuote {
    if !Live(v, leg.marketId) then LegInvalid(BookUnavailable)
    else
      var b := v.books[leg.marketId];
      var level := if leg.yes then BestAsk(b) else BestBid(b);
      if level.None? then LegInvalid(MissingQuote)
      else LegPrice(OutcomePrice(leg, level.value), QuantityAt(b, SideBought(leg), level.value))
  }

  function Quote(id: CandidateId, v: Market): Evaluation {
    if !v.connected then Invalid(Disconnected)
    else
      var a := QuoteLeg(id.first, v);
      if a.LegInvalid? then Invalid(a.reason)
      else
        var b := QuoteLeg(id.second, v);
        if b.LegInvalid? then Invalid(b.reason)
        else
          var quantity := if b.quantity <= a.quantity then b.quantity else a.quantity;
          var sum := a.price + b.price;
          if quantity == 0 then Invalid(MissingQuote)
          else if sum >= PRICE_SCALE then Invalid(NonPositiveMargin)
          else if quantity > INT64_MAX / 10_000 then Invalid(ArithmeticOverflow)
          else Quoted(CandidateQuote(a.price, b.price, quantity, sum * quantity, quantity * 10_000, quantity * 10_000 - sum * quantity))
  }

  /** `price` is the cheapest way to buy the leg, and `quantity` all there is at that price. */
  ghost predicate Cheapest(leg: PayoffLeg, v: Market, price: Price, quantity: Quantity) {
    && Live(v, leg.marketId)
    && var levels := SideOf(v.books[leg.marketId], SideBought(leg));
    && Offered(levels, OutcomePrice(leg, price)) == quantity > 0
    && forall p: Price :: Offered(levels, p) > 0 ==> price <= OutcomePrice(leg, p)
  }

  lemma QuoteLegMeaning(leg: PayoffLeg, v: Market)
    requires Fit(v)
    ensures QuoteLeg(leg, v).LegPrice? ==> Cheapest(leg, v, QuoteLeg(leg, v).price, QuoteLeg(leg, v).quantity)
    ensures QuoteLeg(leg, v) == LegInvalid(BookUnavailable) <==> !Live(v, leg.marketId)
    ensures QuoteLeg(leg, v) == LegInvalid(MissingQuote) <==>
      Live(v, leg.marketId) && forall p: Price :: Offered(SideOf(v.books[leg.marketId], SideBought(leg)), p) == 0
    ensures QuoteLeg(leg, v).LegInvalid? ==> QuoteLeg(leg, v).reason == BookUnavailable || QuoteLeg(leg, v).reason == MissingQuote
  {
    if Live(v, leg.marketId) {
      BestMeaning(v.books[leg.marketId], SideBought(leg));
      hide Visited;
    }
  }

  /** The first level visited is the best one: no level of the side is cheaper to buy. */
  lemma BestMeaning(b: Book, side: Side)
    requires WellFormed(b) && b.state == Valid
    ensures var levels := Visited(b, side);
      && (levels == [] <==> forall p: Price :: Offered(SideOf(b, side), p) == 0)
      && (levels != [] ==>
            && Offered(SideOf(b, side), levels[0].price) > 0
            && forall p: Price :: Offered(SideOf(b, side), p) > 0 ==> if side == Ask then levels[0].price <= p else p <= levels[0].price)
  {
    hide Visited, SideOf, Sorted, Offered;
    var levels, m := Visited(b, side), SideOf(b, side);
    VisitedSorted(b, side);
    forall p: Price | Offered(m, p) > 0
      ensures levels != [] && if side == Ask then levels[0].price <= p else p <= levels[0].price
    {
      VisitedHas(b, side, p);
      FirstIsBest(levels, side, Level(p, Offered(m, p)));
    }
    if levels != [] {
      VisitedOffers(b, side, 0);
    }
  }

  lemma FirstIsBest(levels: seq<Level>, side: Side, level: Level)
    requires Sorted(side, levels) && level in levels
    ensures if side == Ask then levels[0].price <= level.price else level.price <= levels[0].price
  {
    var i :| 0 <= i < |levels| && levels[i] == level;
  }

  /** A candidate is quoted exactly when both legs can be bought, for less than the dollar that
      they guarantee together and with a representable payout; then the quote is for the
      smaller of the two cheapest levels and its margin is positive. */
  lemma QuoteMeaning(id: CandidateId, v: Market)
    requires Fit(v)
    ensures var a, b := QuoteLeg(id.first, v), QuoteLeg(id.second, v);
      && (Quote(id, v).Quoted? <==>
            && v.connected && a.LegPrice? && b.LegPrice? && a.price + b.price < 10_000
            && Min(a.quantity, b.quantity) * 10_000 <= INT64_MAX)
      && (Quote(id, v).Quoted? ==>
            var q := Quote(id, v).quote;
            && Cheapest(id.first, v, q.first, a.quantity) && Cheapest(id.second, v, q.second, b.quantity)
            && q.quantity == Min(a.quantity, b.quantity) > 0
            && q.cost == q.quantity * q.first + q.quantity * q.second <= INT64_MAX
            && q.payout == q.quantity * 10_000 <= INT64_MAX
            && q.margin == q.payout - q.cost > 0)
  {
    hide QuoteLeg, Cheapest;
    QuoteLegMeaning(id.first, v);
    QuoteLegMeaning(id.second, v);
    var a, b := QuoteLeg(id.first, v), QuoteLeg(id.second, v);
    if a.LegPrice? && b.LegPrice? {
      assert a.quantity > 0 && b.quantity > 0 by { CheapestIsPositive(id, v, a, b); }
      var q := Min(a.quantity, b.quantity);
      CostBelowPayout(a.price, b.price, q);
      hide Min;
    }
  }

  lemma CostBelowPayout(a: nat, b: nat, q: nat)
    ensures (a + b) * q == q * a + q * b
    ensures a + b < 10_000 && q > 0 ==> (a + b) * q < q * 10_000
  {
    Distribute(a, b, q);
    if a + b < 10_000 {
      MulMonotone(a + b + 1, 10_000, q);
      Distribute(a + b, 1, q);
    }
  }

  lemma CheapestIsPositive(id: CandidateId, v: Market, a: LegQuote, b: LegQuote)
    requires a.LegPrice? && b.LegPrice?
    requires Cheapest(id.first, v, a.price, a.quantity) && Cheapest(id.second, v, b.price, b.quantity)
    ensures a.quantity > 0 && b.quantity > 0
  {
  }

  /** A quote reads only the connection and the books of its two legs. */
  lemma QuoteFrame(id: CandidateId, v: Market, w: Market)
    requires v.connected == w.connected
    requires forall m :: m == id.first.marketId || m == id.second.marketId ==>
      (m in v.books <==> m in w.books) && (m in v.books ==> v.books[m] == w.books[m])
    ensures Quote(id, v) == Quote(id, w)
  {
    hide BestAsk, BestBid, QuantityAt;
  }

  // ------------------------------------------------------------------------
  // Events
  // ------------------------------------------------------------------------

  datatype Event =
    | Opened(id: CandidateId, quote: CandidateQuote)
    | Updated(id: CandidateId, quote: CandidateQuote)
    | Invalidated(id: CandidateId, reason: Reason)

  datatype Entry = Entry(id: CandidateId, current: Option<CandidateQuote>)

  /** What a consumer of the events holds: the live quotes. It rejects an event that does not
      fit what it holds. */
  function Replay(live: map<CandidateId, CandidateQuote>, events: seq<Event>): Option<map<CandidateId, CandidateQuote>> {
    if events == [] then Some(live)
    else
      var before := Replay(live, events[..|events| - 1]);
      if before.None? then None
      else match events[|events| - 1]
        case Opened(id, quote) => if id in before.value then None else Some(before.value[id := quote])
        case Updated(id, quote) => if id !in before.value || before.value[id] == quote then None else Some(before.value[id := quote])
        case Invalidated(id, _) => if id !in before.value then None else Some(before.value - {id})
  }

  lemma ReplayAppend(live: map<CandidateId, CandidateQuote>, events: seq<Event>, e: Event)
    requires Replay(live, events).Some?
    ensures Replay(live, events + [e]) == Replay(Replay(live, events).value, [e])
  {
    assert (events + [e])[..|events|] == events;
    assert [e][..0] == [];
  }

  function LiveOf(entries: seq<Entry>): map<CandidateId, CandidateQuote> {
    if entries == [] then map[]
    else
      var rest, e := LiveOf(entries[..|entries| - 1]), entries[|entries| - 1];
      if e.current.Some? then rest[e.id := e.current.value] else rest
  }

  predicate DistinctIds(entries: seq<Entry>) {
    forall i, j :: 0 <= i < j < |entries| ==> entries[i].id != entries[j].id
  }

  lemma {:induction false} LiveOfMeaning(entries: seq<Entry>)
    requires DistinctIds(entries)
    ensures forall i :: 0 <= i < |entries| ==>
      (entries[i].id in LiveOf(entries) <==> entries[i].current.Some?)
      && (entries[i].current.Some? ==> LiveOf(entries)[entries[i].id] == entries[i].current.value)
    ensures forall id :: id in LiveOf(entries) ==> exists i :: 0 <= i < |entries| && entries[i].id == id
    decreases |entries|
  {
    if entries != [] {
      var n := |entries| - 1;
      LiveOfMeaning(entries[..n]);
      forall id | id in LiveOf(entries) ensures exists i :: 0 <= i < |entries| && entries[i].id == id {
        if id in LiveOf(entries[..n]) {
          var i :| 0 <= i < n && entries[..n][i].id == id;
          assert entries[i].id == id;
        } else {
          assert entries[n].id == id;
        }
      }
      forall i | 0 <= i < |entries|
        ensures entries[i].id in LiveOf(entries) <==> entries[i].current.Some?
        ensures entries[i].current.Some? ==> LiveOf(entries)[entries[i].id] == entries[i].current.value
      {
        if i < n {
          assert entries[..n][i] == entries[i];
        }
      }
    }
  }

  /** Changing one entry changes the live quotes at its identity only. */
  lemma {:induction false} LiveOfUpdate(entries: seq<Entry>, i: nat, current: Option<CandidateQuote>)
    requires DistinctIds(entries) && i < |entries|
    ensures var updated := entries[i := entries[i].(current := current)];
      LiveOf(updated) == if current.Some? then LiveOf(entries)[entries[i].id := current.value] else LiveOf(entries) - {entries[i].id}
    decreases |entries|
  {
    var n, updated := |entries| - 1, entries[i := entries[i].(current := current)];
    LiveOfMeaning(entries[..n]);
    if i == n {
      assert updated[..n] == entries[..n];
      forall j | 0 <= j < n ensures entries[..n][j].id != entries[n].id {
        assert entries[j].id != entries[n].id;
      }
      assert entries[n].id !in LiveOf(entries[..n]);
    } else {
      assert updated[..n] == entries[..n][i := entries[..n][i].(current := current)];
      LiveOfUpdate(entries[..n], i, current);
      assert entries[n].id != entries[i].id;
    }
  }

  /** The event, if any, that takes an entry to what an evaluation found. */
  function EventFor(e: Entry, found: Evaluation): seq<Event> {
    match found
    case Quoted(q) => if e.current == Some(q) then [] else if e.current.Some? then [Event.Updated(e.id, q)] else [Event.Opened(e.id, q)]
    case Invalid(reason) => if e.current.Some? then [Event.Invalidated(e.id, reason)] else []
  }

  function Found(e: Evaluation): Option<CandidateQuote> {
    if e.Quoted? then Some(e.quote) else None
  }

  lemma EventReplays(entries: seq<Entry>, i: nat, found: Evaluation)
    requires DistinctIds(entries) && i < |entries|
    ensures var updated := entries[i := entries[i].(current := Found(found))];
      && DistinctIds(updated)
      && Replay(LiveOf(entries), EventFor(entries[i], found)) == Some(LiveOf(updated))
      && |LiveOf(updated)| == |LiveOf(entries)| + (if found.Quoted? then 1 else 0) - (if entries[i].current.Some? then 1 else 0)
  {
    LiveOfMeaning(entries);
    LiveOfUpdate(entries, i, Found(found));
    hide LiveOf, Replay;
    EventOnMap(LiveOf(entries), entries[i], found);
  }

  /** What one event does to the live quotes. */
  lemma EventOnMap(live: map<CandidateId, CandidateQuote>, e: Entry, found: Evaluation)
    requires e.id in live <==> e.current.Some?
    requires e.current.Some? ==> live[e.id] == e.current.value
    ensures var updated := if found.Quoted? then live[e.id := found.quote] else live - {e.id};
      && Replay(live, EventFor(e, found)) == Some(updated)
      && |updated| == |live| + (if found.Quoted? then 1 else 0) - (if e.current.Some? then 1 else 0)
  {
    OneEventReplays(live, e, found);
    hide EventFor, Replay;
    if found.Quoted? {
      SetSize(live, e.id, found.quote);
    } else {
      DropSize(live, e.id);
    }
  }

  lemma OneEventReplays(live: map<CandidateId, CandidateQuote>, e: Entry, found: Evaluation)
    requires e.id in live <==> e.current.Some?
    requires e.current.Some? ==> live[e.id] == e.current.value
    ensures Replay(live, EventFor(e, found)) == Some(if found.Quoted? then live[e.id := found.quote] else live - {e.id})
  {
    var es := EventFor(e, found);
    if es != [] {
      assert es[..|es| - 1] == [];
    } else if found.Quoted? {
      assert live[e.id := found.quote] == live;
    } else {
      DropSize(live, e.id);
    }
  }

  lemma SetSize(live: map<CandidateId, CandidateQuote>, id: CandidateId, q: CandidateQuote)
    ensures |live[id := q]| == |live| + (if id in live then 0 else 1)
  {
    assert live[id := q].Keys == live.Keys + {id};
  }

  lemma DropSize(live: map<CandidateId, CandidateQuote>, id: CandidateId)
    ensures |live - {id}| == |live| - (if id in live then 1 else 0)
    ensures id !in live ==> live - {id} == live
  {
    assert (live - {id}).Keys == live.Keys - {id};
  }

  // ------------------------------------------------------------------------
  // The tracker
  // ------------------------------------------------------------------------

  /** Every entry that buys a leg of a market is listed under it. */
  predicate Indexes(dependencies: map<nat, seq<nat>>, entries: seq<Entry>) {
    && (forall i :: 0 <= i < |entries| ==>
          ListedUnder(dependencies, entries[i].id.first.marketId, i) && ListedUnder(dependencies, entries[i].id.second.marketId, i))
    && (forall m :: m in dependencies ==> forall k :: 0 <= k < |dependencies[m]| ==> dependencies[m][k] < |entries|)
  }

  lemma FreshEntries(ids: seq<CandidateId>, entries: seq<Entry>)
    requires forall i, j :: 0 <= i < j < |ids| ==> ids[i] != ids[j]
    requires |entries| == |ids| && forall i :: 0 <= i < |ids| ==> entries[i] == Entry(ids[i], None)
    ensures DistinctIds(entries)
    ensures forall shared, i :: 0 <= i < |entries| ==> UpToDate(entries[i], Unconnected(shared))
  {
  }

  lemma NothingIndexed()
    ensures Indexes(map[], []) && LiveOf([]) == map[]
  {
  }

  lemma NewEntryIndexed(dependencies: map<nat, seq<nat>>, entries: seq<Entry>, e: Entry)
    requires Indexes(dependencies, entries)
    ensures var d := Dependent(dependencies, e.id.first.marketId, |entries|);
      Indexes(Dependent(d, e.id.second.marketId, |entries|), entries + [e])
    ensures e.current.None? ==> LiveOf(entries + [e]) == LiveOf(entries)
  {
    assert (entries + [e])[..|entries|] == entries;
    var n := |entries|;
    var d := Dependent(dependencies, e.id.first.marketId, n);
    var d' := Dependent(d, e.id.second.marketId, n);
    forall m, k ensures ListedUnder(d', m, k) <==>
      ListedUnder(dependencies, m, k) || (k == n && (m == e.id.first.marketId || m == e.id.second.marketId))
    {
      DependentMeaning(dependencies, e.id.first.marketId, n, m, k);
      DependentMeaning(d, e.id.second.marketId, n, m, k);
    }
    hide Dependent;
    forall m, k | m in d' && 0 <= k < |d'[m]| ensures d'[m][k] < n + 1 {
      assert ListedUnder(d', m, d'[m][k]);
    }
  }

  predicate SameIds(entries: seq<Entry>, entries': seq<Entry>) {
    |entries| == |entries'| && forall i :: 0 <= i < |entries| ==> entries'[i].id == entries[i].id
  }

  /** The entry holds what a fresh evaluation finds. */
  predicate UpToDate(e: Entry, v: Market) {
    e.current == Found(Quote(e.id, v))
  }

  class CandidateTracker {
    var entries: seq<Entry>
    var dependencies: map<nat, seq<nat>>
    var events: seq<Event>
    var generation: Option<nat>
    var connected: bool
    var activeCount: nat
    var evaluated: nat

    ghost predicate Valid()
      reads this
    {
      DistinctIds(entries) && Indexes(dependencies, entries) && activeCount == |LiveOf(entries)|
    }

    /** All entries, not only those re-evaluated last, are what the market says now. */
    ghost predicate Agrees(v: Market)
      reads this
    {
      && generation == v.generation && connected == v.connected
      && forall i :: 0 <= i < |entries| ==> UpToDate(entries[i], v)
    }

    /** One entry per identity, with the legs in market order. */
    constructor (ids: seq<CandidateId>)
      requires forall i, j :: 0 <= i < j < |ids| ==> ids[i] != ids[j]
      ensures Valid() && events == [] && activeCount == 0
      ensures |entries| == |ids| && forall i :: 0 <= i < |ids| ==> entries[i] == Entry(ids[i], None)
      ensures forall shared :: Agrees(Unconnected(shared))
    {
      entries, dependencies, events, generation, connected, activeCount, evaluated := [], map[], [], None, false, 0, 0;
      new;
      hide LiveOf, Dependent, Indexes, Quote, Found, DistinctIds, UpToDate;
      NothingIndexed();
      var i := 0;
      while i < |ids|
        invariant i <= |ids| && |entries| == i && forall j :: 0 <= j < i ==> entries[j] == Entry(ids[j], None)
        invariant Indexes(dependencies, entries) && LiveOf(entries) == map[]
        invariant events == [] && activeCount == 0 && generation == None && !connected
      {
        Enter(ids[i]);
        i := i + 1;
      }
      FreshEntries(ids, entries);
    }

    /** Adds an entry and lists it under both of its markets. */
    method Enter(id: CandidateId)
      requires Indexes(dependencies, entries)
      modifies this`entries, this`dependencies
      ensures Indexes(dependencies, entries) && LiveOf(entries) == LiveOf(old(entries))
      ensures entries == old(entries) + [Entry(id, None)]
    {
      hide LiveOf, Dependent, Indexes;
      NewEntryIndexed(dependencies, entries, Entry(id, None));
      dependencies := Dependent(dependencies, id.first.marketId, |entries|);
      dependencies := Dependent(dependencies, id.second.marketId, |entries|);
      entries := entries + [Entry(id, None)];
    }

    /** Re-evaluates one entry and reports a change. */
    method Evaluate(i: nat, v: Market)
      requires Valid() && i < |entries|
      modifies this`entries, this`events, this`activeCount, this`evaluated
      ensures Valid() && SameIds(old(entries), entries) && evaluated == old(evaluated) + 1
      ensures entries == old(entries)[i := entries[i]] && UpToDate(entries[i], v)
      ensures forall live :: Replay(live, old(events)) == Some(LiveOf(old(entries))) ==> Replay(live, events) == Some(LiveOf(entries))
    {
      hide LiveOf, Replay, Quote;
      evaluated := evaluated + 1;
      var e := entries[i];
      var found := Quote(e.id, v);
      EventReplays(entries, i, found);
      ghost var before := events;
      if found.Quoted? {
        if e.current != Some(found.quote) {
          if e.current.None? {
            activeCount := activeCount + 1;
          }
          entries := entries[i := e.(current := Some(found.quote))];
          events := events + [if e.current.Some? then Event.Updated(e.id, found.quote) else Event.Opened(e.id, found.quote)];
        }
      } else if e.current.Some? {
        entries := entries[i := e.(current := None)];
        activeCount := activeCount - 1;
        events := events + [Event.Invalidated(e.id, found.reason)];
      }
      assert entries == old(entries)[i := e.(current := Found(found))];
      assert events == before + EventFor(e, found);
      if EventFor(e, found) != [] {
        forall live | Replay(live, before) == Some(LiveOf(old(entries))) ensures Replay(live, events) == Some(LiveOf(entries)) {
          ReplayAppend(live, before, EventFor(e, found)[0]);
        }
      } else {
        assert entries == old(entries);
      }
    }

    method RefreshAll(v: Market)
      requires Valid()
      modifies this
      ensures Valid() && Agrees(v) && SameIds(old(entries), entries) && evaluated == |entries|
      ensures Replay(LiveOf(old(entries)), events) == Some(LiveOf(entries))
    {
      hide LiveOf, Quote;
      events, evaluated, connected, generation := [], 0, v.connected, v.generation;
      var i := 0;
      while i < |entries|
        invariant i <= |entries| && Valid() && SameIds(old(entries), entries) && evaluated == i
        invariant generation == v.generation && connected == v.connected
        invariant forall j :: 0 <= j < i ==> UpToDate(entries[j], v)
        invariant Replay(LiveOf(old(entries)), events) == Some(LiveOf(entries))
      {
        Evaluate(i, v);
        i := i + 1;
      }
    }

    /** After any single transition, named by the market it changes, every entry is up to date
        again, and replaying the emitted events turns the old live quotes into the new ones.
        Within one connection only the entries of that market are evaluated. */
    method Refresh(changed: nat, ghost v: Market, ghost t: Transition, w: Market)
      requires Valid() && Agrees(v) && w == Next(v, t) && (MarketOf(t).Some? ==> MarketOf(t) == Some(changed))
      modifies this
      ensures Valid() && Agrees(w) && SameIds(old(entries), entries)
      ensures Replay(LiveOf(old(entries)), events) == Some(LiveOf(entries))
      ensures w.generation == v.generation && w.connected == v.connected ==>
        evaluated == if changed in dependencies then |dependencies[changed]| else 0
    {
      hide LiveOf, Quote, Next, Indexes, Replay;
      AffectedEntries(dependencies, entries, changed);
      ReplayNothing(LiveOf(entries));
      if generation != w.generation || connected != w.connected {
        RefreshAll(w);
        return;
      }
      events, evaluated := [], 0;
      if changed in dependencies {
        var affected := dependencies[changed];
        var k := 0;
        while k < |affected|
          invariant k <= |affected| && Valid() && SameIds(old(entries), entries) && evaluated == k
          invariant dependencies == old(dependencies) && generation == w.generation && connected == w.connected
          invariant forall i :: 0 <= i < |entries| ==> entries[i] == old(entries)[i] || UpToDate(entries[i], w)
          invariant forall j :: 0 <= j < k ==> UpToDate(entries[affected[j]], w)
          invariant Replay(LiveOf(old(entries)), events) == Some(LiveOf(entries))
        {
          Evaluate(affected[k], w);
          k := k + 1;
        }
      }
      forall i | 0 <= i < |entries| ensures UpToDate(entries[i], w) {
        if !ListedUnder(dependencies, changed, i) && entries[i] == old(entries)[i] {
          UnaffectedStays(entries[i], changed, v, t, w);
        }
      }
    }
  }

  lemma ReplayNothing(live: map<CandidateId, CandidateQuote>)
    ensures Replay(live, []) == Some(live)
  {
  }

  lemma AffectedEntries(dependencies: map<nat, seq<nat>>, entries: seq<Entry>, changed: nat)
    requires Indexes(dependencies, entries)
    ensures changed in dependencies ==> forall k :: 0 <= k < |dependencies[changed]| ==> dependencies[changed][k] < |entries|
    ensures forall i :: 0 <= i < |entries| && !ListedUnder(dependencies, changed, i) ==>
      entries[i].id.first.marketId != changed && entries[i].id.second.marketId != changed
  {
  }

  /** Entries that do not buy a leg of the changed market have the same quote as before. */
  lemma UnaffectedStays(e: Entry, changed: nat, v: Market, t: Transition, w: Market)
    requires w == Next(v, t) && (MarketOf(t).Some? ==> MarketOf(t) == Some(changed))
    requires w.generation == v.generation && w.connected == v.connected
    requires UpToDate(e, v) && e.id.first.marketId != changed && e.id.second.marketId != changed
    ensures UpToDate(e, w)
  {
    hide Quote, Next;
    OnlyOneBookChanges(v, t, e.id.first.marketId);
    OnlyOneBookChanges(v, t, e.id.second.marketId);
    QuoteFrame(e.id, v, w);
  }
}
