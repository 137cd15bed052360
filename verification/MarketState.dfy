/** All books behind one connection (src/market/market_state.cpp): connection generations, and
    sequence numbers that are checked per book or along a stream that several books share. */
module MarketStates {
  import opened FixedPoint
  import opened OrderBooks

  datatype Update =
    | Snapshot(generation: nat, market: nat, stream: nat, sequence: nat, bids: seq<Level>, asks: seq<Level>)
    | Delta(generation: nat, market: nat, stream: nat, sequence: nat, side: Side, price: Price, delta: int)

  /** Deltas are signed 64-bit integers. */
  predicate ValidUpdate(u: Update) {
    u.Delta? ==> -0x8000_0000_0000_0000 <= u.delta <= INT64_MAX
  }

  datatype Reply = Updated(result: BookUpdateResult) | ConnectionMismatch

  /** `shared` is the sequence scope. */
  datatype Market = Market(shared: bool, generation: Option<nat>, connected: bool, books: map<nat, Book>, streams: map<nat, nat>)

  function Unconnected(shared: bool): Market {
    Market(shared, None, false, map[], map[])
  }

  // ------------------------------------------------------------------------
  // Transitions
  // ------------------------------------------------------------------------

  function Invalidated(books: map<nat, Book>): map<nat, Book> {
    map m | m in books :: books[m].(state := Stale)
  }

  function Opened(v: Market, generation: nat): (Market, bool) {
    if generation == 0 || (v.generation.Some? && generation <= v.generation.value) then (v, false)
    else (Market(v.shared, Some(generation), true, if v.generation.Some? then Invalidated(v.books) else v.books, map[]), true)
  }

  function Closed(v: Market, generation: nat): (Market, bool) {
    if !v.connected || v.generation != Some(generation) then (v, false)
    else (v.(connected := false, books := Invalidated(v.books)), true)
  }

  function Recovered(v: Market, m: nat): (Market, bool) {
    if !v.connected || m !in v.books || v.books[m].state != Stale then (v, false)
    else (v.(books := v.books[m := v.books[m].(state := Recovering)]), true)
  }

  predicate Accepts(v: Market, generation: nat) {
    v.connected && v.generation == Some(generation)
  }

  predicate AcceptsSequence(v: Market, stream: nat, sequence: nat) {
    stream in v.streams ==> sequence == v.streams[stream] + 1
  }

  /** Advances a shared stream, or closes the connection. */
  function Finished(v: Market, stream: nat, sequence: nat, result: BookUpdateResult): (Market, Reply) {
    if result == Applied then (v.(streams := v.streams[stream := sequence]), Updated(result))
    else (v.(connected := false, books := Invalidated(v.books)), Updated(result))
  }

  function Put(v: Market, m: nat, b: Book): Market {
    v.(books := v.books[m := b])
  }

  /** One book has handled an update, and reports it. */
  function Stored(v: Market, m: nat, b: Book, stream: nat, sequence: nat, r: BookUpdateResult): (Market, Reply) {
    if v.shared then Finished(Put(v, m, b), stream, sequence, r) else (Put(v, m, b), Updated(r))
  }

  function BookOf(v: Market, m: nat): Book {
    if m in v.books then v.books[m] else UNKNOWN
  }

  function AfterUpdate(v: Market, u: Update): (Market, Reply) {
    if !Accepts(v, u.generation) then (v, ConnectionMismatch)
    else match u
      case Snapshot(_, m, stream, sequence, bids, asks) =>
        if v.shared && !AcceptsSequence(v, stream, sequence) then Finished(v, stream, sequence, SequenceGap)
        else
          var (b, r) := AfterSnapshot(BookOf(v, m), stream, sequence, bids, asks);
          Stored(v, m, b, stream, sequence, r)
      case Delta(_, m, stream, sequence, side, price, delta) =>
        if m !in v.books then if v.shared then Finished(v, stream, sequence, RequiresSnapshot) else (v, Updated(RequiresSnapshot))
        else if v.shared && (stream !in v.streams || !AcceptsSequence(v, stream, sequence)) then
          Finished(v, stream, sequence, SequenceGap)
        else
          var last := v.books[m].last;
          var predecessor := if v.shared then v.streams[stream] else if last.Some? then last.value else 0;
          var (b, r) := AfterDelta(v.books[m], stream, predecessor, sequence, side, price, delta);
          Stored(v, m, b, stream, sequence, r)
  }

  datatype Transition = Open(g: nat) | Close(g: nat) | Recover(m: nat) | Apply(update: Update)

  function Next(v: Market, t: Transition): Market {
    match t
    case Open(g) => Opened(v, g).0
    case Close(g) => Closed(v, g).0
    case Recover(m) => Recovered(v, m).0
    case Apply(u) => AfterUpdate(v, u).0
  }

  // ------------------------------------------------------------------------
  // What a run has applied
  // ------------------------------------------------------------------------

  /** Every applied update, and those applied since the connection was last opened. */
  datatype History = History(all: seq<Update>, current: seq<Update>)

  function Recorded(v: Market, h: History, t: Transition): History {
    match t
    case Open(g) => if Opened(v, g).1 then h.(current := []) else h
    case Apply(u) => if AfterUpdate(v, u).1 == Updated(Applied) then History(h.all + [u], h.current + [u]) else h
    case _ => h
  }

  /** The quantity that a list of levels gives to a price. */
  function Listed(source: seq<Level>, p: Price): int {
    if source == [] then 0
    else if source[|source| - 1].price == p then source[|source| - 1].quantity
    else Listed(source[..|source| - 1], p)
  }

  /** A market's quantity at a price by the updates alone: its latest snapshot plus the sum of
      the deltas after it. */
  function QuantityIn(log: seq<Update>, m: nat, side: Side, p: Price): int {
    if log == [] then 0
    else
      var before, u := log[..|log| - 1], log[|log| - 1];
      if u.market != m then QuantityIn(before, m, side, p)
      else if u.Snapshot? then Listed(if side == Bid then u.bids else u.asks, p)
      else QuantityIn(before, m, side, p) + (if u.side == side && u.price == p then u.delta else 0)
  }

  /** The latest snapshot of a market and every delta after it came on `stream`. */
  predicate OnStream(log: seq<Update>, m: nat, stream: nat) {
    log != [] &&
    var before, u := log[..|log| - 1], log[|log| - 1];
    if u.market != m then OnStream(before, m, stream)
    else u.stream == stream && (u.Delta? ==> OnStream(before, m, stream))
  }

  /** The sequence numbers of a market's latest snapshot and of the deltas after it. */
  function SinceSnapshot(log: seq<Update>, m: nat): seq<nat> {
    if log == [] then []
    else
      var before, u := log[..|log| - 1], log[|log| - 1];
      if u.market != m then SinceSnapshot(before, m)
      else if u.Snapshot? then [u.sequence]
      else SinceSnapshot(before, m) + [u.sequence]
  }

  /** The sequence numbers applied on a stream. */
  function StreamLog(log: seq<Update>, stream: nat): seq<nat> {
    if log == [] then []
    else
      var before, u := log[..|log| - 1], log[|log| - 1];
      StreamLog(before, stream) + (if u.stream == stream then [u.sequence] else [])
  }

  predicate Consecutive(ns: seq<nat>) {
    forall i :: 0 < i < |ns| ==> ns[i] == ns[i - 1] + 1
  }

  /** Consecutive and ending in `last`. */
  predicate EndsAt(ns: seq<nat>, last: nat) {
    ns != [] && Consecutive(ns) && ns[|ns| - 1] == last
  }

  // ------------------------------------------------------------------------
  // Invariants
  // ------------------------------------------------------------------------

  predicate Live(v: Market, m: nat) {
    m in v.books && v.books[m].state == Valid
  }

  /** Books are usable only while connected, and hold positive quantities. */
  ghost predicate Fit(v: Market) {
    && (v.connected ==> v.generation.Some?)
    && (forall m :: m in v.books ==> WellFormed(v.books[m]))
    && (forall m :: Live(v, m) ==> v.connected)
  }

  /** A live book is what the applied updates of its market say. */
  ghost predicate Reconstructs(log: seq<Update>, m: nat, b: Book) {
    && (forall side: Side, p: Price :: Offered(SideOf(b, side), p) == QuantityIn(log, m, side, p))
    && b.stream.Some? && OnStream(log, m, b.stream.value)
  }

  ghost predicate Rebuilt(v: Market, log: seq<Update>) {
    forall m :: Live(v, m) ==> Reconstructs(log, m, v.books[m])
  }

  predicate InStream(b: Book, streams: map<nat, nat>) {
    b.stream.Some? && b.last.Some? && b.stream.value in streams && b.last.value <= streams[b.stream.value]
  }

  /** On a shared stream the applied numbers are consecutive, across all of its books. */
  ghost predicate StreamsOrdered(v: Market, current: seq<Update>) {
    && (forall s :: s in v.streams ==> EndsAt(StreamLog(current, s), v.streams[s]))
    && (forall s :: s !in v.streams ==> StreamLog(current, s) == [])
    && (forall m :: Live(v, m) ==> InStream(v.books[m], v.streams))
  }

  /** With sequence numbers per book, those of each live book are consecutive. */
  ghost predicate BooksOrdered(v: Market, log: seq<Update>) {
    forall m :: Live(v, m) ==> v.books[m].last.Some? && EndsAt(SinceSnapshot(log, m), v.books[m].last.value)
  }

  ghost predicate Inv(v: Market, h: History) {
    && Fit(v) && Rebuilt(v, h.all)
    && (if v.shared then StreamsOrdered(v, h.current) else BooksOrdered(v, h.all))
  }

  // ------------------------------------------------------------------------
  // Preservation
  // ------------------------------------------------------------------------

  lemma LogAppend(log: seq<Update>, u: Update)
    ensures (log + [u])[..|log + [u]| - 1] == log && (log + [u])[|log + [u]| - 1] == u
  {
  }

  /** Updates of other markets do not matter to a book. */
  lemma OtherMarketKept(log: seq<Update>, u: Update, m: nat, b: Book)
    requires u.market != m
    ensures Reconstructs(log + [u], m, b) == Reconstructs(log, m, b)
    ensures SinceSnapshot(log + [u], m) == SinceSnapshot(log, m)
  {
    LogAppend(log, u);
    forall side: Side, p: Price ensures QuantityIn(log + [u], m, side, p) == QuantityIn(log, m, side, p) {
    }
  }

  lemma {:induction false} ListedIsLoaded(source: seq<Level>, p: Price)
    ensures Listed(source, p) == Offered(Loaded(source), p)
    decreases |source|
  {
    if source != [] {
      ListedIsLoaded(source[..|source| - 1], p);
    }
  }

  lemma SnapshotReconstructs(log: seq<Update>, u: Update, b: Book)
    requires u.Snapshot? && b.bids == Loaded(u.bids) && b.asks == Loaded(u.asks) && b.stream == Some(u.stream)
    ensures Reconstructs(log + [u], u.market, b)
    ensures SinceSnapshot(log + [u], u.market) == [u.sequence]
  {
    LogAppend(log, u);
    forall side: Side, p: Price ensures Offered(SideOf(b, side), p) == QuantityIn(log + [u], u.market, side, p) {
      ListedIsLoaded(u.bids, p);
      ListedIsLoaded(u.asks, p);
    }
  }

  lemma DeltaReconstructs(log: seq<Update>, u: Update, b: Book, c: Book)
    requires u.Delta? && Reconstructs(log, u.market, b) && b.stream == c.stream == Some(u.stream)
    requires forall s: Side, p: Price ::
      Offered(SideOf(c, s), p) == Offered(SideOf(b, s), p) + (if s == u.side && p == u.price then u.delta else 0)
    ensures Reconstructs(log + [u], u.market, c)
    ensures SinceSnapshot(log + [u], u.market) == SinceSnapshot(log, u.market) + [u.sequence]
  {
    LogAppend(log, u);
    forall side: Side, p: Price ensures Offered(SideOf(c, side), p) == QuantityIn(log + [u], u.market, side, p) {
    }
  }

  lemma EndsNext(ns: seq<nat>, last: nat)
    requires EndsAt(ns, last)
    ensures EndsAt(ns + [last + 1], last + 1)
  {
  }

  lemma StreamNext(current: seq<Update>, u: Update, streams: map<nat, nat>)
    requires forall s :: s in streams ==> EndsAt(StreamLog(current, s), streams[s])
    requires forall s :: s !in streams ==> StreamLog(current, s) == []
    requires u.stream in streams ==> u.sequence == streams[u.stream] + 1
    ensures var streams' := streams[u.stream := u.sequence];
      && (forall s :: s in streams' ==> EndsAt(StreamLog(current + [u], s), streams'[s]))
      && (forall s :: s !in streams' ==> StreamLog(current + [u], s) == [])
  {
    EndsAlone(u.sequence);
    if u.stream in streams {
      EndsNext(StreamLog(current, u.stream), streams[u.stream]);
    }
    hide EndsAt;
    var streams' := streams[u.stream := u.sequence];
    forall s | s in streams' ensures EndsAt(StreamLog(current + [u], s), streams'[s]) {
      StreamLogAppend(current, u, s);
      hide StreamLog;
    }
    forall s | s !in streams' ensures StreamLog(current + [u], s) == [] {
      StreamLogAppend(current, u, s);
      hide StreamLog;
    }
    hide StreamLog;
  }

  lemma StreamLogAppend(log: seq<Update>, u: Update, stream: nat)
    ensures StreamLog(log + [u], stream) == StreamLog(log, stream) + (if u.stream == stream then [u.sequence] else [])
  {
    LogAppend(log, u);
  }

  lemma EndsAlone(n: nat)
    ensures EndsAt([n], n)
  {
  }

  /** Any books with nobody live are trivially in order. */
  lemma NobodyLive(v: Market, h: History)
    requires forall m :: m in v.books ==> WellFormed(v.books[m]) && v.books[m].state != Valid
    requires v.connected ==> v.generation.Some?
    requires v.shared ==> forall s :: s in v.streams ==> EndsAt(StreamLog(h.current, s), v.streams[s])
    requires v.shared ==> forall s :: s !in v.streams ==> StreamLog(h.current, s) == []
    ensures Inv(v, h)
  {
  }

  lemma InitInv(shared: bool)
    ensures Inv(Unconnected(shared), History([], []))
  {
  }

  lemma ConnectionKeepsInv(v: Market, h: History, t: Transition)
    requires Inv(v, h) && !t.Apply?
    ensures Inv(Next(v, t), Recorded(v, h, t))
  {
    hide Inv;
    match t
    case Open(g) => OpenKeepsInv(v, h, g);
    case Close(g) => CloseKeepsInv(v, h, g);
    case Recover(m) => RecoverKeepsInv(v, h, m);
  }

  lemma OpenKeepsInv(v: Market, h: History, g: nat)
    requires Inv(v, h)
    ensures Inv(Next(v, Open(g)), Recorded(v, h, Open(g)))
  {
    hide Reconstructs, SinceSnapshot, EndsAt;
    if Opened(v, g).1 {
      forall m | m in v.books ensures v.generation.None? ==> v.books[m].state != Valid {
        assert Live(v, m) ==> v.connected;
      }
      forall s: nat ensures StreamLog([], s) == [] {
      }
      NobodyLive(Next(v, Open(g)), Recorded(v, h, Open(g)));
    }
  }

  lemma CloseKeepsInv(v: Market, h: History, g: nat)
    requires Inv(v, h)
    ensures Inv(Next(v, Close(g)), Recorded(v, h, Close(g)))
  {
    hide Reconstructs, SinceSnapshot, EndsAt, StreamLog;
    if Closed(v, g).1 {
      NobodyLive(Next(v, Close(g)), Recorded(v, h, Close(g)));
    }
  }

  lemma RecoverKeepsInv(v: Market, h: History, m: nat)
    requires Inv(v, h)
    ensures Inv(Next(v, Recover(m)), Recorded(v, h, Recover(m)))
  {
    hide Reconstructs, SinceSnapshot, EndsAt, StreamLog;
  }

  /** Closing after a rejection keeps everything in order. */
  lemma ClosingKeepsInv(v: Market, w: Market, h: History, stream: nat, sequence: nat, r: BookUpdateResult)
    requires Inv(v, h) && v.shared && r != Applied
    requires w == v.(books := w.books) && forall m :: m in w.books ==> WellFormed(w.books[m])
    ensures Inv(Finished(w, stream, sequence, r).0, h)
  {
    hide EndsAt, StreamLog;
    NobodyLive(Finished(w, stream, sequence, r).0, h);
  }

  /** One book changes to one that is not live. */
  lemma DroppedBook(v: Market, h: History, m: nat, b: Book)
    requires Inv(v, h) && WellFormed(b) && (b.state == Valid ==> m in v.books && b == v.books[m])
    ensures !v.shared ==> Inv(Put(v, m, b), h)
  {
    hide Reconstructs, EndsAt, SinceSnapshot;
    if b.state == Valid {
      assert Put(v, m, b) == v;
    } else {
      forall m' | Live(Put(v, m, b), m') ensures m' != m && Live(v, m') {
      }
    }
  }

  /** One book takes an update. */
  lemma UpdatedBook(v: Market, h: History, u: Update, b: Book)
    requires Inv(v, h) && v.connected && WellFormed(b) && b.state == Valid
    requires b.stream == Some(u.stream) && b.last == Some(u.sequence)
    requires Reconstructs(h.all + [u], u.market, b)
    requires v.shared ==> AcceptsSequence(v, u.stream, u.sequence)
    requires !v.shared ==> EndsAt(SinceSnapshot(h.all + [u], u.market), u.sequence)
    ensures var w := Put(v, u.market, b);
      Inv(if v.shared then Finished(w, u.stream, u.sequence, Applied).0 else w, History(h.all + [u], h.current + [u]))
  {
    hide Reconstructs, EndsAt, SinceSnapshot, StreamLog, WellFormed;
    forall m | m != u.market && Live(v, m)
      ensures Reconstructs(h.all + [u], m, v.books[m]) && SinceSnapshot(h.all + [u], m) == SinceSnapshot(h.all, m)
    {
      OtherMarketKept(h.all, u, m, v.books[m]);
    }
    if v.shared {
      StreamNext(h.current, u, v.streams);
    }
  }

  lemma SnapshotKeepsInv(v: Market, h: History, u: Update)
    requires Inv(v, h) && u.Snapshot?
    ensures Inv(AfterUpdate(v, u).0, Recorded(v, h, Apply(u)))
  {
    hide Reconstructs, EndsAt, SinceSnapshot, StreamLog, Loaded, Loadable;
    if Accepts(v, u.generation) {
      if v.shared && !AcceptsSequence(v, u.stream, u.sequence) {
        ClosingKeepsInv(v, v, h, u.stream, u.sequence, SequenceGap);
      } else {
        var b := if u.market in v.books then v.books[u.market] else UNKNOWN;
        var (c, r) := AfterSnapshot(b, u.stream, u.sequence, u.bids, u.asks);
        SnapshotMeaning(b, u.stream, u.sequence, u.bids, u.asks);
        if r == Applied {
          SnapshotReconstructs(h.all, u, c);
          EndsAlone(u.sequence);
          UpdatedBook(v, h, u, c);
        } else if v.shared {
          ClosingKeepsInv(v, Put(v, u.market, c), h, u.stream, u.sequence, r);
        } else {
          DroppedBook(v, h, u.market, c);
        }
      }
    }
  }

  lemma DeltaKeepsInv(v: Market, h: History, u: Update)
    requires Inv(v, h) && u.Delta? && ValidUpdate(u)
    ensures Inv(AfterUpdate(v, u).0, Recorded(v, h, Apply(u)))
  {
    hide Reconstructs, EndsAt, SinceSnapshot, StreamLog;
    if Accepts(v, u.generation) {
      if u.market !in v.books {
        if v.shared {
          ClosingKeepsInv(v, v, h, u.stream, u.sequence, RequiresSnapshot);
        }
      } else if v.shared && (u.stream !in v.streams || !AcceptsSequence(v, u.stream, u.sequence)) {
        ClosingKeepsInv(v, v, h, u.stream, u.sequence, SequenceGap);
      } else {
        var b := v.books[u.market];
        var predecessor := if v.shared then v.streams[u.stream] else if b.last.Some? then b.last.value else 0;
        var (c, r) := AfterDelta(b, u.stream, predecessor, u.sequence, u.side, u.price, u.delta);
        DeltaMeaning(b, u.stream, predecessor, u.sequence, u.side, u.price, u.delta);
        if r == Applied {
          assert Live(v, u.market);
          DeltaReconstructs(h.all, u, b, c);
          if !v.shared {
            EndsNext(SinceSnapshot(h.all, u.market), b.last.value);
          }
          UpdatedBook(v, h, u, c);
        } else if v.shared {
          ClosingKeepsInv(v, Put(v, u.market, c), h, u.stream, u.sequence, r);
        } else {
          DroppedBook(v, h, u.market, c);
        }
      }
    }
  }

  lemma NextKeepsInv(v: Market, h: History, t: Transition)
    requires Inv(v, h) && (t.Apply? ==> ValidUpdate(t.update))
    ensures Inv(Next(v, t), Recorded(v, h, t))
  {
    if t.Apply? {
      if t.update.Snapshot? {
        SnapshotKeepsInv(v, h, t.update);
      } else {
        DeltaKeepsInv(v, h, t.update);
      }
    } else {
      ConnectionKeepsInv(v, h, t);
    }
  }

  // ------------------------------------------------------------------------
  // Theorems over every run
  // ------------------------------------------------------------------------

  function Run(v: Market, ts: seq<Transition>): Market
    decreases ts
  {
    if ts == [] then v else Run(Next(v, ts[0]), ts[1..])
  }

  function RunHistory(v: Market, h: History, ts: seq<Transition>): History
    decreases ts
  {
    if ts == [] then h else RunHistory(Next(v, ts[0]), Recorded(v, h, ts[0]), ts[1..])
  }

  lemma {:induction false} RunKeepsInv(v: Market, h: History, ts: seq<Transition>)
    requires Inv(v, h) && forall i :: 0 <= i < |ts| && ts[i].Apply? ==> ValidUpdate(ts[i].update)
    ensures Inv(Run(v, ts), RunHistory(v, h, ts))
    decreases ts
  {
    hide Inv, Next, Recorded;
    if ts != [] {
      NextKeepsInv(v, h, ts[0]);
      RunKeepsInv(Next(v, ts[0]), Recorded(v, h, ts[0]), ts[1..]);
    }
  }

  /** In every reachable state of either scope, a live book implies an open connection, holds
      only positive quantities, and equals the latest snapshot of its market plus every later
      delta, all on the book's own stream; and the sequence numbers that were applied are
      consecutive, per stream within the generation or per book. */
  lemma ReachableBooks(shared: bool, ts: seq<Transition>, m: nat)
    requires forall i :: 0 <= i < |ts| && ts[i].Apply? ==> ValidUpdate(ts[i].update)
    ensures var v, h := Run(Unconnected(shared), ts), RunHistory(Unconnected(shared), History([], []), ts);
      && (forall s :: Consecutive(StreamLog(h.current, s)) || !v.shared)
      && (Live(v, m) ==>
            && v.connected && WellFormed(v.books[m])
            && Reconstructs(h.all, m, v.books[m])
            && (!v.shared ==> Consecutive(SinceSnapshot(h.all, m))))
  {
    hide Run, RunHistory, Reconstructs, StreamLog, SinceSnapshot, WellFormed;
    InitInv(shared);
    RunKeepsInv(Unconnected(shared), History([], []), ts);
  }

  /** On a shared stream, an update of the open generation that is not applied leaves the
      connection closed and no book live, and everything after it of this generation is refused. */
  lemma FailsClosed(v: Market, u: Update)
    requires v.shared && Accepts(v, u.generation) && AfterUpdate(v, u).1 != Updated(Applied)
    ensures var w := AfterUpdate(v, u).0;
      !w.connected && (forall m :: !Live(w, m)) && (forall u': Update :: u'.generation == u.generation ==> AfterUpdate(w, u') == (w, ConnectionMismatch))
  {
    hide AfterSnapshot, AfterDelta;
  }

  /** On a shared stream a delta is applied exactly when its book is live on that stream, it is
      the next number of the stream, and the level stays in range: whatever was applied to
      other books of the stream, a live book is never behind it. */
  lemma SharedDeltaApplied(v: Market, h: History, u: Update)
    requires Inv(v, h) && v.shared && u.Delta? && ValidUpdate(u) && Accepts(v, u.generation)
    ensures AfterUpdate(v, u).1 == Updated(Applied) <==>
      && Live(v, u.market) && v.books[u.market].stream == Some(u.stream)
      && u.stream in v.streams && u.sequence == v.streams[u.stream] + 1
      && 0 <= Offered(SideOf(v.books[u.market], u.side), u.price) + u.delta <= INT64_MAX
  {
    hide Reconstructs, EndsAt, StreamLog, Rebuilt;
    if u.market in v.books && u.stream in v.streams {
      DeltaMeaning(v.books[u.market], u.stream, v.streams[u.stream], u.sequence, u.side, u.price, u.delta);
      hide AfterDelta;
    }
  }

  function MarketOf(t: Transition): Option<nat> {
    match t
    case Recover(m) => Some(m)
    case Apply(u) => Some(u.market)
    case _ => None
  }

  /** A transition changes at most the book it names, unless it opens or closes the connection. */
  lemma OnlyOneBookChanges(v: Market, t: Transition, m: nat)
    requires MarketOf(t) != Some(m)
    requires Next(v, t).connected == v.connected && Next(v, t).generation == v.generation
    ensures m in Next(v, t).books <==> m in v.books
    ensures m in v.books ==> Next(v, t).books[m] == v.books[m]
  {
    hide AfterSnapshot, AfterDelta;
  }

  // ------------------------------------------------------------------------
  // The market
  // ------------------------------------------------------------------------

  lemma Overwritten(books: map<nat, Book>, m: nat, b: Book, c: Book)
    ensures books[m := b][m := c] == books[m := c]
  {
  }

  lemma SnapshotCases(v: Market, u: Update)
    requires u.Snapshot?
    ensures AfterUpdate(v, u) ==
      if !Accepts(v, u.generation) then (v, ConnectionMismatch)
      else if v.shared && !AcceptsSequence(v, u.stream, u.sequence) then Finished(v, u.stream, u.sequence, SequenceGap)
      else
        var (b, r) := AfterSnapshot(BookOf(v, u.market), u.stream, u.sequence, u.bids, u.asks);
        Stored(v, u.market, b, u.stream, u.sequence, r)
  {
    hide AfterSnapshot, Finished;
  }

  ghost function Values(books: map<nat, OrderBook>): map<nat, Book>
    reads books.Values
  {
    map m | m in books :: books[m].Value()
  }

  class MarketState {
    var generation: Option<nat>
    var connected: bool
    var books: map<nat, OrderBook>
    const shared: bool
    var streams: map<nat, nat>

    /** Every market has a book of its own. */
    ghost predicate Valid()
      reads this
    {
      forall m, m' :: m in books && m' in books && m != m' ==> books[m] != books[m']
    }

    ghost function Value(): Market
      reads this, books.Values
    {
      Market(shared, generation, connected, Values(books), streams)
    }

    constructor (shared: bool)
      ensures Valid() && Value() == Unconnected(shared) && books == map[]
    {
      this.shared := shared;
      generation, connected, books, streams := None, false, map[], map[];
    }

    method OpenConnection(next: nat) returns (ok: bool)
      requires Valid()
      modifies this, books.Values
      ensures Valid() && books == old(books)
      ensures (Value(), ok) == Opened(old(Value()), next)
    {
      hide Invalidated, Values;
      if next == 0 || (generation.Some? && next <= generation.value) {
        return false;
      }
      if generation.Some? {
        InvalidateAll();
      }
      generation, streams, connected := Some(next), map[], true;
      return true;
    }

    method CloseConnection(of: nat) returns (closed: bool)
      requires Valid()
      modifies this, books.Values
      ensures Valid() && books == old(books)
      ensures (Value(), closed) == Closed(old(Value()), of)
    {
      if !connected || generation.None? || of != generation.value {
        return false;
      }
      connected := false;
      InvalidateAll();
      return true;
    }

    method InvalidateAll()
      requires Valid()
      modifies books.Values
      ensures Values(books) == Invalidated(old(Values(books)))
    {
      var left := books.Keys;
      while left != {}
        invariant left <= books.Keys
        invariant forall m :: m in books ==>
          books[m].Value() == if m in left then old(books[m].Value()) else old(books[m].Value()).(state := Stale)
        decreases |left|
      {
        var m :| m in left;
        books[m].MarkStale();
        left := left - {m};
      }
    }

    method BeginRecovery(m: nat) returns (started: bool)
      requires Valid()
      modifies books.Values
      ensures (Value(), started) == Recovered(old(Value()), m)
    {
      if !connected || m !in books {
        return false;
      }
      started := books[m].BeginRecovery();
      assert Values(books) == old(Values(books))[m := books[m].Value()];
    }

    method FinishShared(stream: nat, sequence: nat, result: BookUpdateResult) returns (r: Reply)
      requires Valid() && connected && generation.Some?
      modifies this, books.Values
      ensures Valid() && books == old(books)
      ensures (Value(), r) == Finished(old(Value()), stream, sequence, result)
    {
      if result == Applied {
        streams := streams[stream := sequence];
      } else {
        var closed := CloseConnection(generation.value);
      }
      return Updated(result);
    }

    /** A market without a book gets an empty one. */
    method TryEmplace(m: nat)
      requires Valid()
      modifies this`books
      ensures Valid() && m in books && fresh(books.Values - old(books.Values))
      ensures Values(books) == old(Values(books))[m := BookOf(old(Value()), m)]
    {
      if m !in books {
        var b := new OrderBook();
        books := books[m := b];
      }
    }

    /** The market's book, new if need be, takes a snapshot. */
    method LoadBook(u: Update) returns (r: BookUpdateResult)
      requires Valid() && u.Snapshot?
      modifies this`books, books.Values
      ensures Valid() && fresh(books.Values - old(books.Values))
      ensures var v := old(Value());
        var (b, result) := AfterSnapshot(BookOf(v, u.market), u.stream, u.sequence, u.bids, u.asks);
        Value() == Put(v, u.market, b) && r == result
    {
      hide AfterSnapshot;
      ghost var v := Value();
      TryEmplace(u.market);
      var book := books[u.market];
      assert Values(books)[u.market] == book.Value();
      r := UpdateBook(book, u);
      Overwritten(v.books, u.market, BookOf(v, u.market), AfterSnapshot(BookOf(v, u.market), u.stream, u.sequence, u.bids, u.asks).0);
    }

    method UpdateBook(book: OrderBook, u: Update) returns (r: BookUpdateResult)
      requires Valid() && u.Snapshot? && u.market in books && books[u.market] == book
      modifies book
      ensures Values(books) == old(Values(books))[u.market := AfterSnapshot(old(book.Value()), u.stream, u.sequence, u.bids, u.asks).0]
      ensures r == AfterSnapshot(old(book.Value()), u.stream, u.sequence, u.bids, u.asks).1
    {
      hide AfterSnapshot;
      r := book.ApplySnapshot(u.stream, u.sequence, u.bids, u.asks);
    }

    method ApplySnapshot(u: Update) returns (r: Reply)
      requires Valid() && u.Snapshot?
      modifies this, books.Values
      ensures Valid() && fresh(books.Values - old(books.Values))
      ensures (Value(), r) == AfterUpdate(old(Value()), u)
    {
      hide AfterSnapshot, Finished, AfterUpdate;
      ghost var v := Value();
      SnapshotCases(v, u);
      if !(connected && generation.Some? && u.generation == generation.value) {
        return ConnectionMismatch;
      }
      if shared && u.stream in streams && u.sequence != streams[u.stream] + 1 {
        r := FinishShared(u.stream, u.sequence, SequenceGap);
        return;
      }
      var result := LoadBook(u);
      if shared {
        r := FinishShared(u.stream, u.sequence, result);
      } else {
        r := Updated(result);
      }
    }

    method ApplyDelta(u: Update) returns (r: Reply)
      requires Valid() && u.Delta? && ValidUpdate(u)
      modifies this, books.Values
      ensures Valid() && books == old(books)
      ensures (Value(), r) == AfterUpdate(old(Value()), u)
    {
      hide AfterDelta, Finished;
      if !(connected && generation.Some? && u.generation == generation.value) {
        return ConnectionMismatch;
      }
      if u.market !in books {
        if shared {
          r := FinishShared(u.stream, u.sequence, RequiresSnapshot);
        } else {
          r := Updated(RequiresSnapshot);
        }
        return;
      }
      if shared && (u.stream !in streams || u.sequence != streams[u.stream] + 1) {
        r := FinishShared(u.stream, u.sequence, SequenceGap);
        return;
      }
      var result := ChangeBook(u);
      if shared {
        r := FinishShared(u.stream, u.sequence, result);
      } else {
        r := Updated(result);
      }
    }

    /** The delta on its own book. */
    method ChangeBook(u: Update) returns (result: BookUpdateResult)
      requires Valid() && u.Delta? && ValidUpdate(u) && u.market in books && (shared ==> u.stream in streams)
      modifies books.Values
      ensures var b := old(Values(books))[u.market];
        var predecessor := if shared then streams[u.stream] else if b.last.Some? then b.last.value else 0;
        var (c, reply) := AfterDelta(b, u.stream, predecessor, u.sequence, u.side, u.price, u.delta);
        Values(books) == old(Values(books))[u.market := c] && result == reply
    {
      hide AfterDelta;
      if shared {
        result := books[u.market].ApplyDeltaAfter(u.stream, streams[u.stream], u.sequence, u.side, u.price, u.delta);
      } else {
        result := books[u.market].ApplyDelta(u.stream, u.sequence, u.side, u.price, u.delta);
      }
      assert Values(books) == old(Values(books))[u.market := books[u.market].Value()];
    }

    method Apply(u: Update) returns (r: Reply)
      requires Valid() && ValidUpdate(u)
      modifies this, books.Values
      ensures Valid() && fresh(books.Values - old(books.Values))
      ensures (Value(), r) == AfterUpdate(old(Value()), u)
    {
      if u.Snapshot? {
        r := ApplySnapshot(u);
      } else {
        r := ApplyDelta(u);
      }
    }
  }
}
