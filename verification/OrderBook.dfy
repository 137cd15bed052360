/** One market's book (src/book/order_book.cpp): levels, sequence numbers and the states that
    make it fail closed. The class is proved against functions on book values. */
module OrderBooks {
  import opened FixedPoint

  datatype BookState = Empty | Valid | Stale | Recovering
  datatype Side = Bid | Ask
  datatype BookUpdateResult =
    | Applied | RequiresSnapshot | StreamMismatch | SequenceGap | InvalidLevel | RecoveryNotStarted | StaleSnapshot

  datatype Level = Level(price: Price, quantity: Quantity)
  type Levels = map<Price, Quantity>

  datatype Book = Book(state: BookState, stream: Option<nat>, last: Option<nat>, bids: Levels, asks: Levels)

  const UNKNOWN := Book(Empty, None, None, map[], map[])

  function SideOf(b: Book, side: Side): Levels {
    if side == Bid then b.bids else b.asks
  }

  function WithSide(b: Book, side: Side, levels: Levels): Book {
    if side == Bid then b.(bids := levels) else b.(asks := levels)
  }

  /** What a book offers at a price. */
  function Offered(levels: Levels, price: Price): Quantity {
    if price in levels then levels[price] else 0
  }

  // ------------------------------------------------------------------------
  // Snapshots
  // ------------------------------------------------------------------------

  /** Each price once, and something to trade at it. */
  predicate Loadable(source: seq<Level>) {
    && (forall i :: 0 <= i < |source| ==> source[i].quantity > 0)
    && (forall i, j :: 0 <= i < j < |source| ==> source[i].price != source[j].price)
  }

  function Loaded(source: seq<Level>): Levels {
    if source == [] then map[]
    else Loaded(source[..|source| - 1])[source[|source| - 1].price := source[|source| - 1].quantity]
  }

  /** Loading keeps exactly the levels of the source. */
  lemma {:induction false} LoadedMeaning(source: seq<Level>)
    requires Loadable(source)
    ensures forall i :: 0 <= i < |source| ==> source[i].price in Loaded(source) && Loaded(source)[source[i].price] == source[i].quantity
    ensures forall p :: p in Loaded(source) ==> exists i :: 0 <= i < |source| && source[i].price == p
    decreases |source|
  {
    if source != [] {
      var rest := source[..|source| - 1];
      LoadedMeaning(rest);
      forall p | p in Loaded(source) ensures exists i :: 0 <= i < |source| && source[i].price == p {
        if p in Loaded(rest) {
          var i :| 0 <= i < |rest| && rest[i].price == p;
          assert source[i].price == p;
        } else {
          assert source[|source| - 1].price == p;
        }
      }
      forall i | 0 <= i < |source| ensures source[i].price in Loaded(source) && Loaded(source)[source[i].price] == source[i].quantity {
        if i < |rest| {
          assert rest[i] == source[i];
        }
      }
    }
  }

  function AfterSnapshot(b: Book, stream: nat, sequence: nat, bids: seq<Level>, asks: seq<Level>): (Book, BookUpdateResult) {
    if b.state == Stale then (b, RecoveryNotStarted)
    else if b.state == Valid && b.stream.Some? && b.last.Some? && stream != b.stream.value then (b.(state := Stale), StreamMismatch)
    else if b.state == Valid && b.stream.Some? && b.last.Some? && sequence <= b.last.value then (b, StaleSnapshot)
    else if !Loadable(bids) || !Loadable(asks) then (b.(state := Stale), InvalidLevel)
    else (Book(Valid, Some(stream), Some(sequence), Loaded(bids), Loaded(asks)), Applied)
  }

  // ------------------------------------------------------------------------
  // Deltas
  // ------------------------------------------------------------------------

  /** A level after a change of its quantity, unless that leaves the signed 64-bit range
      or would be negative. */
  function Changed(current: Quantity, delta: int): Option<Quantity> {
    if 0 <= current + delta <= INT64_MAX then Some(current + delta) else None
  }

  /** The levels with one of them replaced; nothing is stored at zero. */
  function Replaced(levels: Levels, price: Price, quantity: Quantity): Levels {
    if quantity == 0 then levels - {price} else levels[price := quantity]
  }

  function AfterDelta(b: Book, stream: nat, predecessor: nat, sequence: nat, side: Side, price: Price, delta: int): (Book, BookUpdateResult) {
    if b.state != Valid || b.stream.None? || b.last.None? then (b, RequiresSnapshot)
    else if stream != b.stream.value then (b.(state := Stale), StreamMismatch)
    else if predecessor < b.last.value || sequence != predecessor + 1 then (b.(state := Stale), SequenceGap)
    else
      var updated := Changed(Offered(SideOf(b, side), price), delta);
      if updated.None? then (b.(state := Stale), InvalidLevel)
      else (WithSide(b, side, Replaced(SideOf(b, side), price, updated.value)).(last := Some(sequence)), Applied)
  }

  // ------------------------------------------------------------------------
  // What updates mean
  // ------------------------------------------------------------------------

  /** Nothing is stored at zero, and a valid book knows its stream and sequence. */
  predicate WellFormed(b: Book) {
    && (forall p :: p in b.bids ==> b.bids[p] > 0)
    && (forall p :: p in b.asks ==> b.asks[p] > 0)
    && (b.state == Valid ==> b.stream.Some? && b.last.Some?)
  }

  /** A snapshot replaces the whole depth exactly when the book takes it; any other snapshot
      leaves the depth alone, and the book is then not usable unless the snapshot was old. */
  lemma SnapshotMeaning(b: Book, stream: nat, sequence: nat, bids: seq<Level>, asks: seq<Level>)
    requires WellFormed(b)
    ensures var (c, r) := AfterSnapshot(b, stream, sequence, bids, asks);
      && WellFormed(c)
      && (r == Applied <==>
            && b.state != Stale && (b.state == Valid ==> b.stream == Some(stream) && b.last.value < sequence)
            && Loadable(bids) && Loadable(asks))
      && (r == Applied ==>
            && c.state == Valid && c.stream == Some(stream) && c.last == Some(sequence)
            && (forall i :: 0 <= i < |bids| ==> Offered(c.bids, bids[i].price) == bids[i].quantity)
            && (forall i :: 0 <= i < |asks| ==> Offered(c.asks, asks[i].price) == asks[i].quantity)
            && (forall p: Price :: Offered(c.bids, p) > 0 ==> exists i :: 0 <= i < |bids| && bids[i].price == p)
            && (forall p: Price :: Offered(c.asks, p) > 0 ==> exists i :: 0 <= i < |asks| && asks[i].price == p))
      && (r != Applied ==> c.bids == b.bids && c.asks == b.asks && c.last == b.last && (c.state == Stale || c == b))
      && (r != Applied && c.state == Valid ==> r == StaleSnapshot && sequence <= b.last.value)
  {
    if Loadable(bids) {
      LoadedMeaning(bids);
    }
    if Loadable(asks) {
      LoadedMeaning(asks);
    }
    hide Loaded, Loadable;
  }

  /** A delta on a valid book adds to exactly one level, which stays non-negative; a delta
      that the book does not take leaves its depth alone, and the book is then not valid. */
  lemma DeltaMeaning(b: Book, stream: nat, predecessor: nat, sequence: nat, side: Side, price: Price, delta: int)
    requires WellFormed(b) && -0x8000_0000_0000_0000 <= delta <= INT64_MAX
    ensures var (c, r) := AfterDelta(b, stream, predecessor, sequence, side, price, delta);
      && WellFormed(c)
      && (r == Applied <==>
            && b.state == Valid && b.stream == Some(stream) && b.last.value <= predecessor && sequence == predecessor + 1
            && 0 <= Offered(SideOf(b, side), price) + delta <= INT64_MAX)
      && (r == Applied ==>
            && c.state == Valid && c.stream == b.stream && c.last == Some(sequence)
            && (forall s: Side, p: Price :: Offered(SideOf(c, s), p)
                  == Offered(SideOf(b, s), p) + (if s == side && p == price then delta else 0)))
      && (r != Applied ==> c.bids == b.bids && c.asks == b.asks && c.last == b.last && c.state != Valid)
  {
  }

  // ------------------------------------------------------------------------
  // Visiting levels
  // ------------------------------------------------------------------------

  /** Ask levels from `from` upwards. */
  function Upwards(levels: Levels, from: nat): seq<Level>
    decreases 10_001 - from
  {
    if from > PRICE_SCALE then []
    else (if from in levels then [Level(from, levels[from])] else []) + Upwards(levels, from + 1)
  }

  /** Bid levels below `to` downwards. */
  function Downwards(levels: Levels, to: nat): seq<Level>
    requires to <= PRICE_SCALE + 1
  {
    if to == 0 then []
    else (if to - 1 in levels then [Level(to - 1, levels[to - 1])] else []) + Downwards(levels, to - 1)
  }

  /** Best to worst; a book that is not valid exposes nothing. */
  function Visited(b: Book, side: Side): seq<Level> {
    if b.state != Valid then []
    else if side == Ask then Upwards(b.asks, 0) else Downwards(b.bids, PRICE_SCALE + 1)
  }

  predicate Sorted(side: Side, levels: seq<Level>) {
    forall i, j :: 0 <= i < j < |levels| ==>
      if side == Ask then levels[i].price < levels[j].price else levels[i].price > levels[j].price
  }

  lemma {:induction false} UpwardsMeaning(levels: Levels, from: nat)
    ensures Sorted(Ask, Upwards(levels, from)) && |Upwards(levels, from)| + from <= Max(from, PRICE_SCALE + 1)
    ensures forall i :: 0 <= i < |Upwards(levels, from)| ==>
      var l := Upwards(levels, from)[i]; from <= l.price && l.price in levels && levels[l.price] == l.quantity
    ensures forall p: Price :: from <= p && p in levels ==> Level(p, levels[p]) in Upwards(levels, from)
    decreases 10_001 - from
  {
    if from <= PRICE_SCALE {
      UpwardsMeaning(levels, from + 1);
    }
  }

  lemma {:induction false} DownwardsMeaning(levels: Levels, to: nat)
    requires to <= PRICE_SCALE + 1
    ensures Sorted(Bid, Downwards(levels, to)) && |Downwards(levels, to)| <= to
    ensures forall i :: 0 <= i < |Downwards(levels, to)| ==>
      var l := Downwards(levels, to)[i]; l.price < to && l.price in levels && levels[l.price] == l.quantity
    ensures forall p: Price :: p < to && p in levels ==> Level(p, levels[p]) in Downwards(levels, to)
  {
    if to > 0 {
      DownwardsMeaning(levels, to - 1);
    }
  }

  /** A valid book is visited best to worst, every level once, and nothing else. */
  lemma VisitedMeaning(b: Book, side: Side)
    requires WellFormed(b)
    ensures var v := Visited(b, side);
      && Sorted(side, v) && |v| <= PRICE_SCALE + 1
      && (forall i :: 0 <= i < |v| ==> v[i].quantity > 0 && Offered(SideOf(b, side), v[i].price) == v[i].quantity)
      && (b.state == Valid ==> forall p: Price :: Offered(SideOf(b, side), p) > 0 ==> Level(p, Offered(SideOf(b, side), p)) in v)
  {
    hide Upwards, Downwards;
    UpwardsMeaning(b.asks, 0);
    DownwardsMeaning(b.bids, PRICE_SCALE + 1);
  }

  /** The same for one price, and for one visited level. */
  lemma VisitedHas(b: Book, side: Side, p: Price)
    requires WellFormed(b) && b.state == Valid && Offered(SideOf(b, side), p) > 0
    ensures Level(p, Offered(SideOf(b, side), p)) in Visited(b, side)
  {
    VisitedMeaning(b, side);
    hide Visited;
  }

  lemma VisitedOffers(b: Book, side: Side, i: nat)
    requires WellFormed(b) && i < |Visited(b, side)|
    ensures var l := Visited(b, side)[i]; l.quantity > 0 && Offered(SideOf(b, side), l.price) == l.quantity
  {
    VisitedMeaning(b, side);
    hide Visited;
  }

  lemma VisitedSorted(b: Book, side: Side)
    requires WellFormed(b)
    ensures Sorted(side, Visited(b, side))
  {
    VisitedMeaning(b, side);
    hide Visited, Sorted;
  }

  // ------------------------------------------------------------------------
  // The book
  // ------------------------------------------------------------------------

  class OrderBook {
    var state: BookState
    var streamId: Option<nat>
    var lastSequence: Option<nat>
    var bids: Levels
    var asks: Levels

    ghost function Value(): Book
      reads this
    {
      Book(state, streamId, lastSequence, bids, asks)
    }

    constructor ()
      ensures Value() == UNKNOWN
    {
      state, streamId, lastSequence, bids, asks := Empty, None, None, map[], map[];
    }

    method ApplySnapshot(stream: nat, sequence: nat, nextBids: seq<Level>, nextAsks: seq<Level>) returns (r: BookUpdateResult)
      modifies this
      ensures (Value(), r) == AfterSnapshot(old(Value()), stream, sequence, nextBids, nextAsks)
    {
      if state == Stale {
        return RecoveryNotStarted;
      }
      if state == Valid && streamId.Some? && lastSequence.Some? {
        if stream != streamId.value {
          MarkStale();
          return StreamMismatch;
        }
        if sequence <= lastSequence.value {
          return StaleSnapshot;
        }
      }
      var loadedBids := LoadLevels(nextBids);
      var loadedAsks := None;
      if loadedBids.Some? {
        loadedAsks := LoadLevels(nextAsks);
      }
      if loadedAsks.None? {
        MarkStale();
        return InvalidLevel;
      }
      bids, asks := loadedBids.value, loadedAsks.value;
      streamId, lastSequence, state := Some(stream), Some(sequence), Valid;
      return Applied;
    }

    /** The book's own last sequence number stands for the predecessor. */
    method ApplyDelta(stream: nat, sequence: nat, side: Side, price: Price, delta: int) returns (r: BookUpdateResult)
      requires -0x8000_0000_0000_0000 <= delta <= INT64_MAX
      modifies this
      ensures (Value(), r) == AfterDelta(old(Value()), stream, if old(lastSequence).Some? then old(lastSequence).value else 0,
                                         sequence, side, price, delta)
    {
      r := ApplyDeltaAfter(stream, if lastSequence.Some? then lastSequence.value else 0, sequence, side, price, delta);
    }

    method ApplyDeltaAfter(stream: nat, predecessor: nat, sequence: nat, side: Side, price: Price, delta: int)
      returns (r: BookUpdateResult)
      requires -0x8000_0000_0000_0000 <= delta <= INT64_MAX
      modifies this
      ensures (Value(), r) == AfterDelta(old(Value()), stream, predecessor, sequence, side, price, delta)
    {
      if state != Valid || streamId.None? || lastSequence.None? {
        return RequiresSnapshot;
      }
      if stream != streamId.value {
        MarkStale();
        return StreamMismatch;
      }
      if predecessor < lastSequence.value || sequence <= predecessor || sequence - predecessor != 1 {
        MarkStale();
        return SequenceGap;
      }
      var levels := if side == Bid then bids else asks;
      var current := if price in levels then levels[price] else 0;
      if (delta > 0 && current > INT64_MAX - delta) || delta == -0x8000_0000_0000_0000 || (delta < 0 && current < -delta) {
        MarkStale();
        return InvalidLevel;
      }
      var updated: Quantity := current + delta;
      if updated == 0 {
        levels := levels - {price};
      } else {
        levels := levels[price := updated];
      }
      if side == Bid {
        bids := levels;
      } else {
        asks := levels;
      }
      lastSequence := Some(sequence);
      return Applied;
    }

    method MarkStale()
      modifies this`state
      ensures Value() == old(Value()).(state := Stale)
    {
      state := Stale;
    }

    method BeginRecovery() returns (started: bool)
      modifies this`state
      ensures started == (old(state) == Stale)
      ensures Value() == old(Value()).(state := if old(state) == Stale then Recovering else old(state))
    {
      if state != Stale {
        return false;
      }
      state := Recovering;
      return true;
    }
  }

  /** The levels of a snapshot, unless one is empty or repeats a price. */
  method LoadLevels(source: seq<Level>) returns (r: Option<Levels>)
    ensures r == if Loadable(source) then Some(Loaded(source)) else None
  {
    hide Loadable, Loaded;
    var levels: Levels, i := map[], 0;
    NothingToLoad(source[..0]);
    while i < |source|
      invariant i <= |source| && Loadable(source[..i]) && levels == Loaded(source[..i])
    {
      LoadNext(source, i);
      if source[i].quantity == 0 || source[i].price in levels {
        return None;
      }
      levels := levels[source[i].price := source[i].quantity];
      i := i + 1;
    }
    assert source[..i] == source;
    return Some(levels);
  }

  lemma NothingToLoad(source: seq<Level>)
    requires source == []
    ensures Loadable(source) && Loaded(source) == map[]
  {
  }

  lemma LoadNext(source: seq<Level>, i: nat)
    requires i < |source| && Loadable(source[..i])
    ensures source[i].quantity == 0 || source[i].price in Loaded(source[..i]) ==> !Loadable(source)
    ensures source[i].quantity > 0 && source[i].price !in Loaded(source[..i]) ==>
      && Loadable(source[..i + 1])
      && Loaded(source[..i + 1]) == Loaded(source[..i])[source[i].price := source[i].quantity]
  {
    var done := source[..i + 1];
    assert done[..i] == source[..i];
    LoadedMeaning(source[..i]);
    if source[i].price in Loaded(source[..i]) {
      var j :| 0 <= j < i && source[..i][j].price == source[i].price;
      assert source[j].price == source[i].price;
    } else if source[i].quantity > 0 {
      forall j, k | 0 <= j < k < |done| ensures done[j].price != done[k].price {
        assert source[..i][j].price in Loaded(source[..i]);
        if k < i {
          assert source[..i][j].price != source[..i][k].price;
        }
      }
      forall j | 0 <= j < |done| ensures done[j].quantity > 0 {
        if j < i {
          assert source[..i][j].quantity > 0;
        }
      }
    }
  }
}
