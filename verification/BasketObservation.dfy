/** Interval accounting of the basket observation (src/session/basket_observation.cpp): how long
    each basket had each status, when its positive episodes open and close, and how long any
    basket was positive. */
module BasketObservation {
  import opened FixedPoint
  import opened ExecutionCost
  import opened OrderBooks
  import opened ObservedDepths
  import opened ObservedBudgets
  import BasketSizing
  import DepthWalk

  function Index(s: Status): (i: nat)
    ensures i < 7
  {
    match s
    case Unavailable => 0
    case Crossed => 1
    case Expired => 2
    case NoDepth => 3
    case Unfunded => 4
    case Nonpositive => 5
    case Positive => 6
  }

  datatype Basket = Basket(markets: seq<nat>, status: Status, counts: seq<nat>, durations: seq<int>, since: int, openedAt: int,
                           episodes: nat, closedEpisodes: nat, leftCensored: nat, rightCensored: nat,
                           eligibleBefore: bool, active: bool, openingLeftCensored: bool)

  function NewBasket(markets: seq<nat>): Basket {
    Basket(markets, Unavailable, [0, 0, 0, 0, 0, 0, 0], [0, 0, 0, 0, 0, 0, 0], 0, 0, 0, 0, 0, 0, false, false, false)
  }

  /** One record of the replay, with what the observation reads of the market state: whether the
      record's book is valid, and its sides as visited from best to worst. */
  datatype Frame = Frame(time: int, wall: Option<int>, market: Option<nat>, applied: bool, connected: bool, generation: Option<nat>,
                         bookValid: bool, bids: seq<Level>, asks: seq<Level>)

  predicate FrameFits(f: Frame) {
    Sorted(Bid, f.bids) && Sorted(Ask, f.asks) && |f.bids| <= 10_001 && |f.asks| <= 10_001
  }

  // ------------------------------------------------------------------------
  // Durations
  // ------------------------------------------------------------------------

  function Total(d: seq<int>): int {
    if d == [] then 0 else d[0] + Total(d[1..])
  }

  lemma {:induction false} TotalUpdate(d: seq<int>, i: nat, x: int)
    requires i < |d|
    ensures Total(d[i := x]) == Total(d) - d[i] + x
    decreases d
  {
    if i == 0 {
      assert d[0 := x][1..] == d[1..];
    } else {
      assert d[i := x][1..] == d[1..][i - 1 := x];
      TotalUpdate(d[1..], i - 1, x);
    }
  }

  predicate Tallied(b: Basket) {
    |b.durations| == 7 && |b.counts| == 7 && b.episodes == b.closedEpisodes + (if b.active then 1 else 0)
  }

  /** The interval since the last change belongs to the current status. */
  function Accounted(b: Basket, time: int): Basket
    requires Tallied(b)
  {
    b.(durations := b.durations[Index(b.status) := b.durations[Index(b.status)] + (time - b.since)], since := time)
  }

  /** How long a basket has had a status by `time`. */
  function TimeIn(b: Basket, s: Status, time: int): int
    requires Tallied(b)
  {
    b.durations[Index(s)] + (if b.status == s then time - b.since else 0)
  }

  /** How long a basket has been positive by `time`. */
  function PositiveBy(b: Basket, time: int): int
    requires Tallied(b)
  {
    TimeIn(b, Positive, time)
  }

  /** Whatever has happened to the basket at `time`, it has had every status for as long as before. */
  ghost predicate SameTime(b: Basket, c: Basket, time: int) {
    Tallied(b) && Tallied(c) && forall s: Status :: TimeIn(c, s, time) == TimeIn(b, s, time)
  }

  /** No status has lasted any time yet. */
  ghost predicate NoTime(b: Basket, time: int) {
    Tallied(b) && forall s: Status :: TimeIn(b, s, time) == 0
  }

  function PositiveSum(bs: seq<Basket>, time: int): int
    requires forall i :: 0 <= i < |bs| ==> Tallied(bs[i])
  {
    if bs == [] then 0 else PositiveBy(bs[0], time) + PositiveSum(bs[1..], time)
  }

  function ActiveCount(bs: seq<Basket>): nat {
    if bs == [] then 0 else (if bs[0].active then 1 else 0) + ActiveCount(bs[1..])
  }

  lemma {:induction false} ActiveUpdate(bs: seq<Basket>, i: nat, b: Basket)
    requires i < |bs|
    ensures ActiveCount(bs[i := b]) == ActiveCount(bs) - (if bs[i].active then 1 else 0) + (if b.active then 1 else 0)
    ensures bs[i].active ==> ActiveCount(bs) > 0
    decreases bs
  {
    if i == 0 {
      assert bs[0 := b][1..] == bs[1..];
    } else {
      assert bs[i := b][1..] == bs[1..][i - 1 := b];
      ActiveUpdate(bs[1..], i - 1, b);
    }
  }

  lemma {:induction false} PositiveSumUpdate(bs: seq<Basket>, i: nat, b: Basket, time: int)
    requires i < |bs| && Tallied(b) && forall j :: 0 <= j < |bs| ==> Tallied(bs[j])
    ensures PositiveSum(bs[i := b], time) == PositiveSum(bs, time) - PositiveBy(bs[i], time) + PositiveBy(b, time)
    decreases bs
  {
    if i == 0 {
      assert bs[0 := b][1..] == bs[1..];
    } else {
      assert bs[i := b][1..] == bs[1..][i - 1 := b];
      PositiveSumUpdate(bs[1..], i - 1, b, time);
    }
  }

  // ------------------------------------------------------------------------
  // The accounts
  // ------------------------------------------------------------------------

  /** `union` is the time with any active basket, up to `unionSince`. */
  datatype Accounts = Accounts(first: int, baskets: seq<Basket>, active: nat, union: int, unionSince: int)

  function UnionBy(s: Accounts, time: int): int {
    s.union + (if s.active > 0 then time - s.unionSince else 0)
  }

  /** Whatever has happened at `time`, every basket has had every status, and any of them has been
      active, for as long as before. */
  ghost predicate SameTimes(s: Accounts, t: Accounts, time: int) {
    && UnionBy(t, time) == UnionBy(s, time) && |s.baskets| == |t.baskets|
    && forall i :: 0 <= i < |s.baskets| ==> SameTime(s.baskets[i], t.baskets[i], time)
  }

  ghost predicate NoTimes(s: Accounts, time: int) {
    UnionBy(s, time) == 0 && forall i :: 0 <= i < |s.baskets| ==> NoTime(s.baskets[i], time)
  }

  /** Each basket's durations fill the time since the first record; they and the union are
      accounted up to `now` at most. */
  ghost predicate Timed(s: Accounts, now: int) {
    && s.unionSince <= now
    && forall i :: 0 <= i < |s.baskets| ==>
         && Tallied(s.baskets[i]) && s.baskets[i].since <= now
         && Total(s.baskets[i].durations) == s.baskets[i].since - s.first
  }

  /** The union is at least any basket's positive time, and at most all of them together. */
  ghost predicate Bounded(s: Accounts, time: int)
    requires forall i :: 0 <= i < |s.baskets| ==> Tallied(s.baskets[i])
  {
    && (forall i :: 0 <= i < |s.baskets| ==> PositiveBy(s.baskets[i], time) <= UnionBy(s, time))
    && UnionBy(s, time) <= PositiveSum(s.baskets, time)
  }

  /** A basket is active exactly while its status is positive. */
  ghost predicate Synchronized(s: Accounts) {
    && s.active == ActiveCount(s.baskets)
    && forall i :: 0 <= i < |s.baskets| ==> (s.baskets[i].active <==> s.baskets[i].status == Positive)
  }

  ghost predicate Sound(s: Accounts, now: int) {
    Timed(s, now) && Bounded(s, now) && Synchronized(s)
  }

  /** What also holds after the end: the counts agree, and no clock is ahead of `now`. */
  ghost predicate Countable(s: Accounts, now: int) {
    && s.unionSince <= now && s.active == ActiveCount(s.baskets)
    && forall i :: 0 <= i < |s.baskets| ==> Tallied(s.baskets[i]) && s.baskets[i].since <= now
  }

  lemma SoundIsCountable(s: Accounts, now: int)
    requires Sound(s, now)
    ensures Countable(s, now)
  {
  }

  lemma CountableLater(s: Accounts, now: int, later: int)
    requires Countable(s, now) && now <= later
    ensures Countable(s, later)
  {
  }

  lemma SwitchedOff(s: Accounts, i: nat, b: Basket, time: int)
    requires i < |s.baskets| && !b.active && (s.baskets[i].active ==> s.active > 0)
    ensures var t := Switched(s, i, b, time);
      t.baskets == s.baskets[i := b] && t.active == s.active - (if s.baskets[i].active then 1 else 0)
  {
  }

  lemma SwitchCounts(s: Accounts, i: nat, b: Basket, time: int)
    requires Countable(s, time) && i < |s.baskets| && Tallied(s.baskets[i]) && Follows(s.baskets[i], b, time)
    ensures Countable(Switched(s, i, b, time), time)
    ensures s.baskets[i].active ==> s.active > 0
  {
    ActiveUpdate(s.baskets, i, b);
  }

  /** Time passes: active baskets and, with any of them, the union grow alike. */
  lemma TimePasses(s: Accounts, now: int, later: int)
    requires Sound(s, now) && now <= later
    ensures Sound(s, later)
  {
    SumGrows(s.baskets, now, later);
    forall i | 0 <= i < |s.baskets| ensures PositiveBy(s.baskets[i], later) <= UnionBy(s, later) {
      ActiveUpdate(s.baskets, i, s.baskets[i]);
    }
  }

  lemma {:induction false} SumGrows(bs: seq<Basket>, now: int, later: int)
    requires now <= later && forall i :: 0 <= i < |bs| ==> Tallied(bs[i]) && (bs[i].active <==> bs[i].status == Positive)
    ensures PositiveSum(bs, later) >= PositiveSum(bs, now) + (if ActiveCount(bs) > 0 then later - now else 0)
    decreases bs
  {
    if bs != [] {
      SumGrows(bs[1..], now, later);
    }
  }

  lemma AccountedMeaning(b: Basket, time: int)
    requires Tallied(b)
    ensures var c := Accounted(b, time);
      && Tallied(c) && c.since == time && Total(c.durations) == Total(b.durations) + (time - b.since)
      && forall s: Status :: PositiveBy(c.(status := s), time) == PositiveBy(b, time)
  {
    TotalUpdate(b.durations, Index(b.status), b.durations[Index(b.status)] + (time - b.since));
  }

  /** The interval since the last change goes to the status that the basket has had, and to no other;
      the durations are those of a missing leg, a crossed one, an expired policy, too little depth,
      too little cash, no positive margin, and a positive one, in this order. */
  lemma AccountedSpelledOut(b: Basket, time: int)
    requires Tallied(b)
    ensures var d, n := b.durations, time - b.since;
      Accounted(b, time).durations
      == match b.status
         case Unavailable => [d[0] + n, d[1], d[2], d[3], d[4], d[5], d[6]]
         case Crossed => [d[0], d[1] + n, d[2], d[3], d[4], d[5], d[6]]
         case Expired => [d[0], d[1], d[2] + n, d[3], d[4], d[5], d[6]]
         case NoDepth => [d[0], d[1], d[2], d[3] + n, d[4], d[5], d[6]]
         case Unfunded => [d[0], d[1], d[2], d[3], d[4] + n, d[5], d[6]]
         case Nonpositive => [d[0], d[1], d[2], d[3], d[4], d[5] + n, d[6]]
         case Positive => [d[0], d[1], d[2], d[3], d[4], d[5], d[6] + n]
  {
  }

  /** A change of status at `time` does not touch the times until then, and from then on the new
      status alone gets longer. */
  lemma FollowsSameTime(b: Basket, b': Basket, time: int)
    requires Tallied(b) && Follows(b, b', time)
    ensures SameTime(b, b', time)
  {
  }

  lemma TimeInGrows(b: Basket, s: Status, time: int, later: int)
    requires Tallied(b)
    ensures TimeIn(b, s, later) == TimeIn(b, s, time) + (if b.status == s then later - time else 0)
  {
  }

  lemma SameTimesTrans(s: Accounts, t: Accounts, u: Accounts, time: int)
    requires SameTimes(s, t, time) && SameTimes(t, u, time)
    ensures SameTimes(s, u, time)
  {
    forall i | 0 <= i < |s.baskets| ensures SameTime(s.baskets[i], u.baskets[i], time) {
      assert SameTime(s.baskets[i], t.baskets[i], time) && SameTime(t.baskets[i], u.baskets[i], time);
    }
  }

  lemma NoTimesSame(s: Accounts, t: Accounts, time: int)
    requires NoTimes(s, time) && SameTimes(s, t, time)
    ensures NoTimes(t, time)
  {
    forall i | 0 <= i < |t.baskets| ensures NoTime(t.baskets[i], time) {
      assert NoTime(s.baskets[i], time) && SameTime(s.baskets[i], t.baskets[i], time);
    }
  }

  lemma Unchanged(s: Accounts, time: int)
    requires forall i :: 0 <= i < |s.baskets| ==> Tallied(s.baskets[i])
    ensures SameTimes(s, s, time)
  {
  }

  /** One basket of several changed; the union is accounted where it has to be. */
  lemma OneSameTime(s: Accounts, i: nat, b: Basket, time: int)
    requires i < |s.baskets| && Tallied(s.baskets[i]) && Follows(s.baskets[i], b, time) && forall j :: 0 <= j < |s.baskets| ==> Tallied(s.baskets[j])
    ensures SameTimes(s, Switched(s, i, b, time), time)
  {
    FollowsSameTime(s.baskets[i], b, time);
    Unchanged(s, time);
    SwitchedUnion(s, i, b, time);
    hide SameTime, UnionBy, UnionAccounted;
  }

  lemma SwitchedUnion(s: Accounts, i: nat, b: Basket, time: int)
    requires i < |s.baskets|
    ensures UnionBy(Switched(s, i, b, time), time) == UnionBy(s, time)
  {
  }

  predicate AnyPositive(s: Accounts) {
    exists i :: 0 <= i < |s.baskets| && s.baskets[i].status == Positive
  }

  /** While time passes, the union grows exactly when some basket is positive. */
  lemma UnionGrows(s: Accounts, now: int, time: int, later: int)
    requires Sound(s, now)
    ensures UnionBy(s, later) == UnionBy(s, time) + (if AnyPositive(s) then later - time else 0)
  {
    if i :| 0 <= i < |s.baskets| && s.baskets[i].status == Positive {
      ActiveUpdate(s.baskets, i, s.baskets[i]);
    } else {
      ZeroActive(s.baskets);
    }
  }

  /** The intervals in which a basket had a status, when it is bs[i] from times[i] on. */
  function Intervals(bs: seq<Basket>, times: seq<int>, s: Status): int
    requires |bs| == |times|
  {
    if |bs| <= 1 then 0
    else
      var n := |bs| - 1;
      Intervals(bs[..n], times[..n], s) + (if bs[n - 1].status == s then times[n] - times[n - 1] else 0)
  }

  /** Over a whole run, the time of every status is the sum of the intervals in which the basket had
      it: bs[i] is the basket after the i-th change, at times[i]. */
  lemma {:induction false} TimesOverRun(bs: seq<Basket>, times: seq<int>, s: Status)
    requires |bs| == |times| > 0 && NoTime(bs[0], times[0])
    requires forall i :: 0 <= i < |bs| - 1 ==> SameTime(bs[i], bs[i + 1], times[i + 1])
    ensures var n := |bs| - 1;
      Tallied(bs[n]) && TimeIn(bs[n], s, times[n]) == Intervals(bs, times, s)
    decreases |bs|
  {
    hide TimeIn, Index;
    var n := |bs| - 1;
    if n > 0 {
      forall i | 0 <= i < n - 1 ensures SameTime(bs[..n][i], bs[..n][i + 1], times[..n][i + 1]) {
        assert SameTime(bs[i], bs[i + 1], times[i + 1]);
      }
      TimesOverRun(bs[..n], times[..n], s);
      assert SameTime(bs[n - 1], bs[n], times[n]);
      TimeInGrows(bs[n - 1], s, times[n - 1], times[n]);
    }
  }

  /** The intervals in which some basket was positive, when the accounts are ss[i] from times[i] on. */
  ghost function PositiveIntervals(ss: seq<Accounts>, times: seq<int>): int
    requires |ss| == |times|
  {
    if |ss| <= 1 then 0
    else
      var n := |ss| - 1;
      PositiveIntervals(ss[..n], times[..n])
      + (if AnyPositive(ss[n - 1]) then times[n] - times[n - 1] else 0)
  }

  /** Over a whole run, the union is the sum of the intervals in which some basket was positive. */
  lemma {:induction false} UnionOverRun(ss: seq<Accounts>, times: seq<int>)
    requires |ss| == |times| > 0 && NoTimes(ss[0], times[0])
    requires forall i :: 0 <= i < |ss| ==> Sound(ss[i], times[i])
    requires forall i :: 0 <= i < |ss| - 1 ==> SameTimes(ss[i], ss[i + 1], times[i + 1])
    ensures var n := |ss| - 1; UnionBy(ss[n], times[n]) == PositiveIntervals(ss, times)
    decreases |ss|
  {
    hide Sound, UnionBy, SameTime, NoTime;
    var n := |ss| - 1;
    if n > 0 {
      forall i | 0 <= i < n - 1 ensures SameTimes(ss[..n][i], ss[..n][i + 1], times[..n][i + 1]) {
        assert SameTimes(ss[i], ss[i + 1], times[i + 1]);
      }
      UnionOverRun(ss[..n], times[..n]);
      assert SameTimes(ss[n - 1], ss[n], times[n]);
      UnionGrows(ss[n - 1], times[n - 1], times[n - 1], times[n]);
    }
  }

  /** Accounting the union at `time` changes nothing that is due by then; after it the number
      of active baskets may change. */
  function UnionAccounted(s: Accounts, time: int): Accounts {
    s.(union := UnionBy(s, time), unionSince := time)
  }

  /** One basket gets a new status; when it becomes or stops being active the union is
      accounted first. */
  function Switched(s: Accounts, i: nat, b: Basket, time: int): Accounts
    requires i < |s.baskets|
  {
    if b.active == s.baskets[i].active then s.(baskets := s.baskets[i := b])
    else
      var active := if b.active then s.active + 1 else if s.active > 0 then s.active - 1 else 0;
      UnionAccounted(s, time).(baskets := s.baskets[i := b], active := active)
  }

  /** b' is b accounted up to `time`, whatever its new status. */
  predicate Follows(b: Basket, b': Basket, time: int)
    requires Tallied(b)
  {
    Tallied(b') && b'.durations == Accounted(b, time).durations && b'.since == time
  }

  lemma SwitchKeeps(s: Accounts, i: nat, b: Basket, time: int)
    requires Sound(s, time) && i < |s.baskets| && Tallied(s.baskets[i])
    requires Follows(s.baskets[i], b, time) && (b.active <==> b.status == Positive)
    ensures Sound(Switched(s, i, b, time), time)
  {
    var t := Switched(s, i, b, time);
    AccountedMeaning(s.baskets[i], time);
    assert PositiveBy(b, time) == PositiveBy(s.baskets[i], time);
    PositiveSumUpdate(s.baskets, i, b, time);
    ActiveUpdate(s.baskets, i, b);
    assert UnionBy(t, time) == UnionBy(s, time);
    forall j | 0 <= j < |t.baskets| ensures PositiveBy(t.baskets[j], time) <= UnionBy(t, time) {
      assert j != i ==> t.baskets[j] == s.baskets[j];
    }
  }

  // ------------------------------------------------------------------------
  // Changes of one basket
  // ------------------------------------------------------------------------

  function Closed(b: Basket, censored: bool): Basket {
    if !b.active then b
    else b.(active := false, closedEpisodes := b.closedEpisodes + 1, rightCensored := b.rightCensored + (if censored then 1 else 0))
  }

  function Opened(b: Basket, time: int): Basket {
    if b.active then b
    else b.(active := true, episodes := b.episodes + 1, openedAt := time, openingLeftCensored := !b.eligibleBefore,
            leftCensored := b.leftCensored + (if b.eligibleBefore then 0 else 1))
  }

  function Restatused(b: Basket, s: Status, time: int): Basket
    requires Tallied(b)
  {
    Accounted(b, time).(status := s, counts := b.counts[Index(s) := b.counts[Index(s)] + 1])
  }

  function MadeUnavailable(b: Basket, reason: Status, time: int): Basket
    requires Tallied(b)
  {
    Restatused(Closed(b, true), reason, time).(eligibleBefore := false)
  }

  function Evaluated(b: Basket, found: Status, time: int): Basket
    requires Tallied(b)
  {
    Restatused(if found == Positive then Opened(b, time) else Closed(b, false), found, time).(eligibleBefore := true)
  }

  lemma MadeUnavailableFollows(b: Basket, reason: Status, time: int)
    requires Tallied(b) && reason != Positive
    ensures Follows(b, MadeUnavailable(b, reason, time), time) && !MadeUnavailable(b, reason, time).active
    ensures MadeUnavailable(b, reason, time).status == reason && MadeUnavailable(b, reason, time).markets == b.markets
  {
  }

  lemma EvaluatedFollows(b: Basket, found: Status, time: int)
    requires Tallied(b)
    ensures Follows(b, Evaluated(b, found, time), time)
    ensures Evaluated(b, found, time).active <==> found == Positive
    ensures Evaluated(b, found, time).status == found && Evaluated(b, found, time).markets == b.markets
  {
  }

  /** An evaluated basket: a missing or crossed leg first, and else what sizing says. */
  function Classified(b: Basket, markets: seq<CachedMarket>, found: Status, time: int): Basket
    requires Tallied(b)
  {
    var i := FirstBad(b.markets, markets);
    if i < |b.markets| && b.markets[i] < |markets| then
      MadeUnavailable(b, if !markets[b.markets[i]].valid then Unavailable else Crossed, time)
    else Evaluated(b, found, time)
  }

  lemma ClassifiedStatus(b: Basket, markets: seq<CachedMarket>, found: Status, time: int)
    requires Tallied(b)
    ensures var c := Classified(b, markets, found, time);
      c.status == StatusOf(b.markets, markets, found) && (c.active <==> c.status == Positive)
  {
  }

  /** The record concerns one market's book. */
  predicate Concerns(f: Frame, indexes: map<nat, nat>, markets: seq<CachedMarket>) {
    && f.connected && f.market.Some? && f.market.value in indexes && indexes[f.market.value] < |markets|
    && (f.applied || !f.bookValid)
  }

  /** The cache after a record: emptied by a connection change, and then updated. */
  function Recached(f: Frame, dropped: bool, indexes: map<nat, nat>, markets: seq<CachedMarket>, cap: nat): seq<CachedMarket> {
    var ms := if dropped then seq(|markets|, i requires 0 <= i < |markets| => markets[i].(valid := false)) else markets;
    if !Concerns(f, indexes, markets) then ms
    else
      var k := indexes[f.market.value];
      if f.applied then ms[k := Updated(ms[k], f.bookValid, f.bids, f.asks, cap)] else ms[k := ms[k].(valid := false)]
  }

  /** What a record makes of the i-th basket: a dependent one is evaluated or dropped, every
      other one is dropped by a connection change and is otherwise left alone. */
  ghost predicate Follow(f: Frame, dropped: bool, indexes: map<nat, nat>, markets: seq<CachedMarket>, lim: DepthWalk.SizingLimits,
                         i: nat, legs: seq<nat>, before: Status, after: Status) {
    if Concerns(f, indexes, markets) && i in markets[indexes[f.market.value]].dependencies then
      after == if f.applied then Assessed(legs, Recached(f, dropped, indexes, markets, lim.cap), lim) else Unavailable
    else after == if dropped then Unavailable else before
  }

  ghost predicate Wired(markets: seq<CachedMarket>, indexes: map<nat, nat>, baskets: seq<Basket>) {
    && (forall m :: 0 <= m < |markets| ==> forall k :: 0 <= k < |markets[m].dependencies| ==> markets[m].dependencies[k] < |baskets|)
    && (forall m :: 0 <= m < |markets| ==> Usable(markets[m]))
    && (forall i :: 0 <= i < |baskets| ==> Shaped(baskets[i].markets, markets))
    && (forall id :: id in indexes ==> indexes[id] < |markets|)
    && 0 < |baskets|
  }

  function LegsOf(baskets: seq<Basket>): seq<seq<nat>> {
    seq(|baskets|, i requires 0 <= i < |baskets| => baskets[i].markets)
  }

  function Activity(baskets: seq<Basket>): seq<bool> {
    seq(|baskets|, i requires 0 <= i < |baskets| => baskets[i].active)
  }

  lemma OneChanged(baskets: seq<Basket>, i: nat, b: Basket)
    requires i < |baskets| && b.markets == baskets[i].markets
    ensures LegsOf(baskets[i := b]) == LegsOf(baskets) && Activity(baskets[i := b]) == Activity(baskets)[i := b.active]
  {
  }

  /** Nothing has been observed yet. */
  predicate Untouched(b: Basket) {
    b == NewBasket(b.markets)
  }

  class Observation {
    const validFrom: int
    const validUntil: int
    const maximumEvents: nat
    /** The limits of sizing, and how many quantities one update may evaluate. */
    const limits: DepthWalk.SizingLimits
    const totalBudget: nat
    const indexes: map<nat, nat>
    var markets: seq<CachedMarket>
    var baskets: seq<Basket>
    var firstTime: Option<int>
    var lastTime: Option<int>
    var deadline: Option<int>
    var generation: Option<nat>
    var expired: bool
    var finished: bool
    var active: nat
    var maximumActive: nat
    var positiveUnion: int
    var unionSince: int
    var events: nat
    /** Up to when the accounts have been brought: the last record, or the expiry. */
    ghost var mark: int
    /** The latest time of any callback. */
    ghost var latest: int

    ghost function Books(): Accounts
      reads this`firstTime, this`baskets, this`active, this`positiveUnion, this`unionSince
    {
      Accounts(if firstTime.Some? then firstTime.value else 0, baskets, active, positiveUnion, unionSince)
    }

    ghost predicate Valid()
      reads this
    {
      && Wired(markets, indexes, baskets) && events <= maximumEvents && validFrom < validUntil && BasketSizing.ValidLimits(limits)
      && (firstTime.None? ==>
            (lastTime.None? || finished) && deadline.None? && !expired && active == 0 && positiveUnion == 0
            && forall i :: 0 <= i < |baskets| ==> Untouched(baskets[i]))
      && (firstTime.Some? && !finished ==> lastTime.Some? && Sound(Books(), mark) && 0 <= firstTime.value <= mark <= latest)
      && (firstTime.Some? && !finished && !expired ==> mark == lastTime.value && (deadline.Some? ==> lastTime.value < deadline.value))
      && (firstTime.Some? && finished ==>
            Countable(Books(), mark) && active == 0 && (deadline.Some? ==> mark <= deadline.value))
      && (expired ==> deadline.None? && (firstTime.Some? && !finished ==> forall i :: 0 <= i < |baskets| ==> baskets[i].since == mark && !baskets[i].active))
    }

    constructor (validFrom: int, validUntil: int, maximumEvents: nat, limits: DepthWalk.SizingLimits, totalBudget: nat,
                 markets: seq<CachedMarket>, indexes: map<nat, nat>, legs: seq<seq<nat>>)
      requires validFrom < validUntil && Wired(markets, indexes, seq(|legs|, i requires 0 <= i < |legs| => NewBasket(legs[i])))
      requires BasketSizing.ValidLimits(limits) && totalBudget > 0
      ensures Valid() && firstTime.None? && !finished && !expired && |baskets| == |legs|
      ensures this.validFrom == validFrom && this.validUntil == validUntil && this.maximumEvents == maximumEvents && this.indexes == indexes
      ensures this.markets == markets && events == 0 && this.limits == limits && this.totalBudget == totalBudget
    {
      this.validFrom, this.validUntil, this.maximumEvents, this.indexes := validFrom, validUntil, maximumEvents, indexes;
      this.markets, this.limits, this.totalBudget := markets, limits, totalBudget;
      baskets := seq(|legs|, i requires 0 <= i < |legs| => NewBasket(legs[i]));
      firstTime, lastTime, deadline, generation, expired, finished := None, None, None, None, false, false;
      active, maximumActive, positiveUnion, unionSince, events, mark, latest := 0, 0, 0, 0, 0, 0, 0;
    }

    // ----------------------------------------------------------------------
    // When a callback fails
    // ----------------------------------------------------------------------

    /** `n` more events do not fit. */
    predicate Full(n: nat)
      reads this`events
    {
      n > maximumEvents - events
    }

    predicate Regressed(time: int)
      reads this`lastTime
    {
      time < 0 || (lastTime.Some? && time < lastTime.value)
    }

    /** The validity has ended by `time`, and that is noticed now. */
    predicate Expires(time: int)
      reads this`deadline, this`expired
    {
      !expired && deadline.Some? && time >= deadline.value
    }

    /** Every active basket's episode is closed when the validity ends. */
    function BeforeFault(time: int): Option<Fault>
      reads this`lastTime, this`deadline, this`expired, this`active, this`events
    {
      if Regressed(time) then Some(ClockRegression)
      else if Expires(time) && Full(active) then Some(EventBudget)
      else None
    }

    predicate Drops(f: Frame)
      reads this`generation
    {
      !f.connected || f.generation != generation
    }

    /** The update that a record makes, and what it may use up: a connection change has closed
        every episode before. */
    ghost function UpdateOf(f: Frame): Update
      reads this`generation, this`markets, this`baskets
    {
      Update(LegsOf(baskets), Recached(f, Drops(f), indexes, markets, limits.cap), limits, maximumEvents, !f.applied)
    }

    ghost function MeterOf(f: Frame): Meter
      reads this`generation, this`baskets, this`active, this`events
    {
      if Drops(f) then Meter(seq(|baskets|, _ => false), totalBudget, events + active) else Meter(Activity(baskets), totalBudget, events)
    }

    ghost function ObserveFault(f: Frame): Option<Fault>
      requires Wired(markets, indexes, baskets)
      reads this`generation, this`markets, this`baskets, this`active, this`events
    {
      if Drops(f) && Full(active) then Some(EventBudget)
      else if !f.connected || f.market.None? then None
      else if f.market.value !in indexes then Some(OutsideCohort)
      else if Concerns(f, indexes, markets) then UpdateFault(UpdateOf(f), MeterOf(f), markets[indexes[f.market.value]].dependencies)
      else None
    }

    ghost function ObserveEvents(f: Frame): int
      requires Wired(markets, indexes, baskets)
      reads this`generation, this`markets, this`baskets, this`active, this`events
    {
      if Concerns(f, indexes, markets) then AllMetered(UpdateOf(f), MeterOf(f), markets[indexes[f.market.value]].dependencies).events
      else MeterOf(f).events
    }

    /** The first thing that a record fails on: its clocks, its validity, the deadline, or the
        events and evaluations that it needs. */
    ghost function RecordFault(f: Frame): Option<Fault>
      requires Wired(markets, indexes, baskets)
      reads this
    {
      if BeforeFault(f.time).Some? then BeforeFault(f.time)
      else if finished || f.wall.None? || f.wall.value < validFrom then Some(WallBinding)
      else if Expires(f.time) then None
      else ValidityFault(f)
    }

    /** What a record fails on once its clocks are in order. */
    ghost function ValidityFault(f: Frame): Option<Fault>
      requires Wired(markets, indexes, baskets) && f.wall.Some?
      reads this
    {
      if expired then None
      else if f.wall.value >= validUntil then (if Full(active) then Some(EventBudget) else None)
      else if f.time + (validUntil - f.wall.value) > INT64_MAX then Some(DeadlineOverflow)
      else ObserveFault(f)
    }

    ghost function ValidityEvents(f: Frame): int
      requires Wired(markets, indexes, baskets) && f.wall.Some?
      reads this
    {
      if expired then events else if f.wall.value >= validUntil then events + active else ObserveEvents(f)
    }

    /** How many events there are after a record that does not fail. */
    ghost function RecordEvents(f: Frame): int
      requires Wired(markets, indexes, baskets) && f.wall.Some?
      reads this
    {
      if Expires(f.time) then events + active else ValidityEvents(f)
    }

    /** The budget of one update does not cover all sizes of `n` baskets. */
    predicate Scarce(n: nat) {
      || limits.maxEvaluations < limits.cap / BasketSizing.QUANTITY_STEP
      || totalBudget < n * (limits.cap / BasketSizing.QUANTITY_STEP)
    }

    predicate Overspent(f: Frame)
      reads this`markets
    {
      Concerns(f, indexes, markets) && f.applied && Scarce(|markets[indexes[f.market.value]].dependencies|)
    }

    /** What each fault of a record says about it. A budget that covers every size never fails, and no
        clock regresses. */
    lemma RecordFaultMeaning(f: Frame)
      requires Valid()
      ensures RecordFault(f).Some? ==>
        match RecordFault(f).value
        case ClockRegression => Regressed(f.time)
        case WallBinding => finished || f.wall.None? || f.wall.value < validFrom
        case DeadlineOverflow => f.wall.Some? && f.time + (validUntil - f.wall.value) > INT64_MAX
        case OutsideCohort => f.connected && f.market.Some? && f.market.value !in indexes
        case EventBudget => active > 0 || f.connected
        case UpdateBudget => Overspent(f)
        case SizingIncomplete => Overspent(f)
        case IntervalRegression => false
        case UnionRegression => false
    {
      hide Sound, Countable, Untouched, UpdateFault, Shaped, Usable, Recached, Regressed, BasketSizing.ValidLimits;
      if Concerns(f, indexes, markets) && (Drops(f) ==> !Full(active)) {
        DependentsFault(f);
      }
    }

    lemma DependentsFault(f: Frame)
      requires Valid() && Concerns(f, indexes, markets) && (Drops(f) ==> !Full(active))
      ensures var fault := UpdateFault(UpdateOf(f), MeterOf(f), markets[indexes[f.market.value]].dependencies);
        fault.None? || fault.value == EventBudget || ((fault.value == UpdateBudget || fault.value == SizingIncomplete) && Overspent(f))
    {
      hide Sound, Countable, Untouched, UpdateFault, Shaped, Usable, Recached, Affordable, BasketSizing.ValidLimits;
      var u, m, dependencies := UpdateOf(f), MeterOf(f), markets[indexes[f.market.value]].dependencies;
      UpdateFaultKinds(u, m, dependencies);
      if !Overspent(f) {
        if f.applied {
          EnoughBudget(u, m.budget, dependencies);
        } else {
          DroppingIsFree(u, m.budget, dependencies);
        }
        UpdateFaultMeaning(u, m, dependencies);
      }
    }

    function FinishFault(time: int): Option<Fault>
      requires baskets != []
      reads this
    {
      if finished then None
      else if BeforeFault(time).Some? then BeforeFault(time)
      else if firstTime.None? then None
      else if Regresses(time) then Some(IntervalRegression)
      else if !Expires(time) && Full(active) then Some(EventBudget)
      else None
    }

    method AccountTime(i: nat, time: int) returns (fault: Option<Fault>)
      requires i < |baskets| && Tallied(baskets[i]) && firstTime.Some?
      modifies this`baskets
      ensures fault == if time < old(baskets[i].since) then Some(IntervalRegression) else None
      ensures baskets == if fault.None? then old(baskets)[i := Accounted(old(baskets[i]), time)] else old(baskets)
    {
      var b := baskets[i];
      if time < b.since {
        return Some(IntervalRegression);
      }
      var k := Index(b.status);
      baskets := baskets[i := b.(durations := b.durations[k := b.durations[k] + (time - b.since)], since := time)];
      return None;
    }

    method AccountUnion(time: int) returns (fault: Option<Fault>)
      requires firstTime.Some?
      modifies this`positiveUnion, this`unionSince
      ensures fault == if time < old(unionSince) then Some(UnionRegression) else None
      ensures Books() == if fault.None? then UnionAccounted(old(Books()), time) else old(Books())
    {
      if time < unionSince {
        return Some(UnionRegression);
      }
      if active != 0 {
        positiveUnion := positiveUnion + (time - unionSince);
      }
      unionSince := time;
      return None;
    }

    method Emit() returns (fault: Option<Fault>)
      requires events <= maximumEvents
      modifies this`events
      ensures fault == if old(events) == maximumEvents then Some(EventBudget) else None
      ensures events == (if fault.None? then old(events) + 1 else old(events)) <= maximumEvents
    {
      if events == maximumEvents {
        return Some(EventBudget);
      }
      events := events + 1;
      return None;
    }

    /** Ends an episode. */
    method Close(i: nat, time: int, censored: bool) returns (fault: Option<Fault>)
      requires i < |baskets| && Tallied(baskets[i]) && firstTime.Some? && events <= maximumEvents
      requires baskets[i].active ==> active > 0 && unionSince <= time
      modifies this`baskets, this`active, this`positiveUnion, this`unionSince, this`events
      ensures fault == if old(baskets[i].active && Full(1)) then Some(EventBudget) else None
      ensures events == (if fault.None? && old(baskets[i].active) then old(events) + 1 else old(events)) <= maximumEvents
      ensures fault.None? ==>
        var s, b := old(Books()), old(baskets[i]);
        Books() == (if b.active then UnionAccounted(s, time).(active := s.active - 1) else s).(baskets := s.baskets[i := Closed(b, censored)])
    {
      if !baskets[i].active {
        return None;
      }
      fault := Emit();
      if fault.Some? {
        return;
      }
      fault := AccountUnion(time);
      if fault.Some? {
        return;
      }
      active := active - 1;
      var b := baskets[i];
      baskets := baskets[i := b.(active := false, closedEpisodes := b.closedEpisodes + 1,
                                 rightCensored := b.rightCensored + (if censored then 1 else 0))];
    }

    method SetStatus(i: nat, s: Status, time: int) returns (fault: Option<Fault>)
      requires i < |baskets| && Tallied(baskets[i]) && firstTime.Some? && baskets[i].since <= time
      modifies this`baskets
      ensures fault == None && baskets == old(baskets)[i := Restatused(old(baskets[i]), s, time)]
    {
      fault := AccountTime(i, time);
      if fault.Some? {
        return;
      }
      var b := baskets[i];
      baskets := baskets[i := b.(status := s, counts := b.counts[Index(s) := b.counts[Index(s)] + 1])];
    }

    method MarkUnavailable(i: nat, time: int, reason: Status) returns (fault: Option<Fault>)
      requires i < |baskets| && firstTime.Some? && events <= maximumEvents && Countable(Books(), time) && reason != Positive
      modifies this`baskets, this`active, this`positiveUnion, this`unionSince, this`events
      ensures fault == if old(baskets[i].active && Full(1)) then Some(EventBudget) else None
      ensures events == (if fault.None? && old(baskets[i].active) then old(events) + 1 else old(events)) <= maximumEvents
      ensures fault.None? ==> Tallied(old(baskets[i])) && Books() == Switched(old(Books()), i, MadeUnavailable(old(baskets[i]), reason, time), time)
      ensures fault.None? ==> Countable(Books(), time) && (old(Sound(Books(), time)) ==> Sound(Books(), time))
    {
      hide Sound, ActiveCount;
      ghost var s := Books();
      MadeUnavailableFollows(baskets[i], reason, time);
      SwitchCounts(s, i, MadeUnavailable(baskets[i], reason, time), time);
      if Sound(s, time) {
        SwitchKeeps(s, i, MadeUnavailable(baskets[i], reason, time), time);
      }
      fault := Close(i, time, true);
      if fault.Some? {
        return;
      }
      fault := SetStatus(i, reason, time);
      if fault.Some? {
        return;
      }
      baskets := baskets[i := baskets[i].(eligibleBefore := false)];
    }

    /** The update of the baskets as they are, and what it has left. */
    ghost function CurrentUpdate(drop: bool): Update
      reads this`markets, this`baskets
    {
      Update(LegsOf(baskets), markets, limits, maximumEvents, drop)
    }

    ghost function CurrentMeter(budget: nat): Meter
      reads this`baskets, this`events
    {
      Meter(Activity(baskets), budget, events)
    }

    /** Re-evaluates one basket after an update of one of its books, on what is left of the
        update's budget. */
    method Evaluate(i: nat, time: int, budget: nat) returns (fault: Option<Fault>, left: nat)
      requires i < |baskets| && firstTime.Some? && events <= maximumEvents && Sound(Books(), time)
      requires Wired(markets, indexes, baskets) && BasketSizing.ValidLimits(limits)
      modifies this`baskets, this`active, this`positiveUnion, this`unionSince, this`events
      ensures fault == FaultAt(old(CurrentUpdate(false)), old(CurrentMeter(budget)), i)
      ensures events <= maximumEvents
      ensures fault.None? ==> events == Metered(old(CurrentUpdate(false)), old(CurrentMeter(budget)), i).events
      ensures fault.None? ==> left == Metered(old(CurrentUpdate(false)), old(CurrentMeter(budget)), i).budget
      ensures fault.None? ==>
        var b := old(baskets[i]);
        Books() == Switched(old(Books()), i, Classified(b, markets, Found(b.markets, markets, limits), time), time)
      ensures fault.None? ==> Sound(Books(), time)
    {
      hide Sound, Countable, Switched, Evaluated, MadeUnavailable, Found, SizesOf, Usable, Finding, BasketSizing.ValidLeg, BasketSizing.SizesFrom, FaultAt, Metered;
      var legs := baskets[i].markets;
      left := budget;
      FaultUnfolds(CurrentUpdate(false), CurrentMeter(budget), i);
      SoundIsCountable(Books(), time);
      var bad := BadLeg(legs);
      if bad.Some? {
        fault := MarkUnavailable(i, time, bad.value);
        return;
      }
      if budget == 0 {
        fault := Some(UpdateBudget);
        return;
      }
      AllLegsUsable(legs, markets, limits);
      var found, used := SizeDepths(DepthsOf(legs, markets), limits, budget);
      left := budget - used;
      if found.None? {
        fault := Some(SizingIncomplete);
        return;
      }
      fault := Assess(i, time, found.value);
    }

    /** Why a basket is not sized: its first leg that is missing or crossed. */
    method BadLeg(legs: seq<nat>) returns (bad: Option<Status>)
      requires Shaped(legs, markets)
      ensures bad == if FirstBad(legs, markets) < |legs| then Some(if !markets[legs[FirstBad(legs, markets)]].valid then Unavailable else Crossed) else None
    {
      var k := 0;
      while k < |legs|
        invariant k <= |legs| && FirstBad(legs, markets) >= k
      {
        if !markets[legs[k]].valid {
          return Some(Unavailable);
        }
        if markets[legs[k]].crossed {
          return Some(Crossed);
        }
        k := k + 1;
      }
      bad := None;
    }

    /** All legs are usable: sizing decides. */
    method Assess(i: nat, time: int, found: Status) returns (fault: Option<Fault>)
      requires i < |baskets| && firstTime.Some? && events <= maximumEvents && Sound(Books(), time)
      modifies this`baskets, this`active, this`positiveUnion, this`unionSince, this`events
      ensures fault == if old(baskets[i].active) != (found == Positive) && old(Full(1)) then Some(EventBudget) else None
      ensures events == (if fault.None? && old(baskets[i].active) != (found == Positive) then old(events) + 1 else old(events)) <= maximumEvents
      ensures fault.None? ==> Books() == Switched(old(Books()), i, Evaluated(old(baskets[i]), found, time), time)
      ensures fault.None? ==> Sound(Books(), time)
    {
      hide Bounded, ActiveCount, PositiveSum;
      ActiveUpdate(baskets, i, baskets[i]);
      EvaluatedFollows(baskets[i], found, time);
      SwitchKeeps(Books(), i, Evaluated(baskets[i], found, time), time);
      if found != Positive {
        fault := Close(i, time, false);
      } else {
        fault := Open(i, time);
      }
      if fault.Some? {
        return;
      }
      fault := SetStatus(i, found, time);
      if fault.Some? {
        return;
      }
      baskets := baskets[i := baskets[i].(eligibleBefore := true)];
    }

    /** Starts an episode, unless one is open. */
    method Open(i: nat, time: int) returns (fault: Option<Fault>)
      requires i < |baskets| && Tallied(baskets[i]) && firstTime.Some? && events <= maximumEvents && unionSince <= time
      modifies this`baskets, this`active, this`positiveUnion, this`unionSince, this`events
      ensures fault == if !old(baskets[i].active) && old(Full(1)) then Some(EventBudget) else None
      ensures events == (if fault.None? && !old(baskets[i].active) then old(events) + 1 else old(events)) <= maximumEvents
      ensures fault.None? ==>
        var s, b := old(Books()), old(baskets[i]);
        Books() == (if b.active then s else UnionAccounted(s, time).(active := s.active + 1)).(baskets := s.baskets[i := Opened(b, time)])
    {
      var b := baskets[i];
      if b.active {
        return None;
      }
      fault := AccountUnion(time);
      if fault.Some? {
        return;
      }
      active := active + 1;
      baskets := baskets[i := b.(active := true, episodes := b.episodes + 1, openedAt := time, openingLeftCensored := !b.eligibleBefore,
                                 leftCensored := b.leftCensored + (if b.eligibleBefore then 0 else 1))];
      fault := Emit();
    }

    // ----------------------------------------------------------------------
    // Callbacks
    // ----------------------------------------------------------------------

    /** Makes baskets unavailable, one after another. */
    method MarkAll(time: int, reason: Status) returns (fault: Option<Fault>)
      requires firstTime.Some? && events <= maximumEvents && Countable(Books(), time) && reason != Positive && Wired(markets, indexes, baskets)
      modifies this`baskets, this`active, this`positiveUnion, this`unionSince, this`events
      ensures fault == if old(Full(active)) then Some(EventBudget) else None
      ensures fault.None? ==> SameTimes(old(Books()), Books(), time)
      ensures fault.None? ==> active == 0 && events == old(events) + old(active) <= maximumEvents
      ensures fault.None? ==> Countable(Books(), time) && (old(Sound(Books(), time)) ==> Sound(Books(), time))
      ensures fault.None? ==> Wired(markets, indexes, baskets) && |baskets| == |old(baskets)|
      ensures fault.None? ==> forall i :: 0 <= i < |baskets| ==>
        baskets[i].since == time && !baskets[i].active && baskets[i].status == reason && baskets[i].markets == old(baskets)[i].markets
    {
      hide Sound, MadeUnavailable, Countable, Switched, Wired, SameTime, UnionBy;
      ghost var s := Books();
      CountablesTallied(s, time);
      fault := None;
      var i := 0;
      while i < |baskets|
        invariant i <= |baskets| == |old(baskets)| && Countable(Books(), time) && (Sound(s, time) ==> Sound(Books(), time)) && fault == None
        invariant events <= maximumEvents && events + active == old(events) + old(active)
        invariant forall j :: 0 <= j < |baskets| ==> baskets[j].markets == old(baskets)[j].markets
        invariant forall j :: 0 <= j < i ==> baskets[j].since == time && !baskets[j].active && baskets[j].status == reason
        invariant forall j :: 0 <= j < i ==> SameTime(s.baskets[j], baskets[j], time)
        invariant UnionBy(Books(), time) == UnionBy(s, time)
        invariant forall j :: i <= j < |baskets| ==> baskets[j] == s.baskets[j]
      {
        CountableIsTallied(Books(), time, i);
        MadeUnavailableFollows(baskets[i], reason, time);
        FollowsSameTime(baskets[i], MadeUnavailable(baskets[i], reason, time), time);
        SwitchedOff(Books(), i, MadeUnavailable(baskets[i], reason, time), time);
        SwitchedUnion(Books(), i, MadeUnavailable(baskets[i], reason, time), time);
        fault := MarkUnavailable(i, time, reason);
        if fault.Some? {
          return;
        }
        i := i + 1;
      }
      SameLegs(markets, indexes, s.baskets, baskets);
      NoneActive(Books(), time);
    }

    /** The policy's validity ends. */
    method Expire(time: int) returns (fault: Option<Fault>)
      requires firstTime.Some? && events <= maximumEvents && Countable(Books(), time) && Wired(markets, indexes, baskets)
      modifies this`expired, this`deadline, this`mark, this`baskets, this`active, this`positiveUnion, this`unionSince, this`events
      ensures fault == if old(Full(active)) then Some(EventBudget) else None
      ensures expired && deadline.None? && mark == time && (fault.None? ==> SameTimes(old(Books()), Books(), time))
      ensures fault.None? ==> active == 0 && events == old(events) + old(active) <= maximumEvents
      ensures fault.None? ==> Countable(Books(), time) && (old(Sound(Books(), time)) ==> Sound(Books(), time))
      ensures fault.None? ==> Wired(markets, indexes, baskets) && |baskets| == |old(baskets)|
      ensures fault.None? ==> forall i :: 0 <= i < |baskets| ==>
        baskets[i].since == time && !baskets[i].active && baskets[i].status == Expired && baskets[i].markets == old(baskets)[i].markets
    {
      hide Sound, Countable, SameTimes;
      expired, deadline, mark := true, None, time;
      fault := MarkAll(time, Expired);
    }

    /** The time of a callback, before its record: expiry is accounted at the deadline itself. */
    method Before(time: int) returns (fault: Option<Fault>)
      requires Valid() && FitsInt64(time)
      modifies this`latest, this`expired, this`deadline, this`mark, this`baskets, this`active, this`positiveUnion, this`unionSince, this`events
      ensures fault == old(BeforeFault(time))
      ensures fault.None? ==> events == old(events) + (if old(Expires(time)) then old(active) else 0)
      ensures fault.None? ==> Valid() && |baskets| == |old(baskets)| && latest == Max(old(latest), time)
      ensures fault.None? ==> mark == if old(deadline).Some? && time >= old(deadline).value then old(deadline).value else old(mark)
      ensures fault.None? ==> expired == (old(expired) || (old(deadline).Some? && time >= old(deadline).value))
      ensures fault.None? && !expired ==> deadline == old(deadline) && (deadline.Some? ==> time < deadline.value) && active == old(active)
      ensures fault.None? && expired && !old(expired) ==> active == 0 && forall i :: 0 <= i < |baskets| ==> baskets[i].status == Expired
      ensures fault.None? && expired == old(expired) ==> Books() == old(Books())
      ensures fault.None? && old(Expires(time)) ==> SameTimes(old(Books()), Books(), old(deadline).value)
    {
      hide Sound, Countable, SameTimes;
      if time < 0 || (lastTime.Some? && time < lastTime.value) {
        return Some(ClockRegression);
      }
      fault := None;
      latest := Max(latest, time);
      if deadline.Some? && time >= deadline.value && !expired {
        if !finished {
          TimePasses(Books(), mark, deadline.value);
          SoundIsCountable(Books(), deadline.value);
        } else {
          CountableLater(Books(), mark, deadline.value);
        }
        fault := Expire(deadline.value);
      }
    }

    /** Starts the accounts at the first record. */
    method StartAccounts(time: int)
      requires Valid() && !finished && firstTime.None? && 0 <= time <= latest
      modifies this`firstTime, this`unionSince, this`baskets, this`mark
      ensures firstTime == Some(time) && mark == time && Sound(Books(), time) && |baskets| == |old(baskets)|
      ensures Wired(markets, indexes, baskets)
      ensures forall i :: 0 <= i < |baskets| ==>
        baskets[i].status == old(baskets)[i].status && baskets[i].markets == old(baskets)[i].markets
      ensures LegsOf(baskets) == LegsOf(old(baskets)) && Activity(baskets) == Activity(old(baskets))
      ensures NoTimes(Books(), time)
    {
      hide Wired, Sound, Shaped;
      firstTime, unionSince, mark := Some(time), time, time;
      baskets := seq(|baskets|, i requires 0 <= i < |baskets| reads this => baskets[i].(since := time));
      FreshSound(Books(), old(baskets));
      NothingTimed(old(baskets), Books(), time);
      hide NoTimes;
      SameLegs(markets, indexes, old(baskets), baskets);
    }

    /** One record: expiry, connection changes and the update of one market's baskets. */
    method After(f: Frame) returns (fault: Option<Fault>)
      requires Valid() && FitsInt64(f.time) && FrameFits(f) && (f.wall.Some? ==> FitsInt64(f.wall.value))
      requires FitsInt64(validUntil) && FitsInt64(validFrom) && validFrom >= 0
      modifies this
      ensures fault == old(RecordFault(f))
      ensures fault.None? ==> f.wall.Some? && events == old(RecordEvents(f))
      ensures fault.None? && !expired ==>
        f.wall.Some? && f.wall.value < validUntil && deadline.Some?
        && deadline.value == (if old(deadline).Some? then Min(old(deadline).value, f.time + (validUntil - f.wall.value))
                              else f.time + (validUntil - f.wall.value))
      ensures fault.None? && expired && !old(expired) ==>
        (f.wall.Some? && f.wall.value >= validUntil) || (old(deadline).Some? && f.time >= old(deadline).value)
      ensures fault.None? && !f.connected && !expired ==> active == 0
      ensures fault.None? ==> |baskets| == |old(baskets)|
      ensures fault.None? && !expired ==>
        var dropped := !f.connected || f.generation != old(generation);
        forall i :: 0 <= i < |baskets| ==>
          Follow(f, dropped, indexes, old(markets), limits, i, old(baskets)[i].markets, old(baskets)[i].status, baskets[i].status)
      ensures fault.None? && expired ==> forall i :: 0 <= i < |baskets| ==> baskets[i].status == Expired || old(expired)
      ensures fault.None? && old(expired) ==> baskets == old(baskets)
      ensures fault.None? ==> Valid() && !finished && |baskets| == |old(baskets)| && lastTime == Some(f.time)
      ensures fault.None? ==> latest == Max(old(latest), f.time)
      ensures fault.None? ==> firstTime == if old(firstTime).Some? then old(firstTime) else Some(f.time)
      ensures fault.None? ==>
        maximumActive == if !expired && f.connected && f.market.Some? && f.applied then Max(old(maximumActive), active) else old(maximumActive)
      ensures fault.None? && old(firstTime).None? ==> NoTimes(Books(), f.time)
      ensures fault.None? && old(firstTime).Some? && !old(expired) ==> SameTimes(old(Books()), Books(), if old(Expires(f.time)) then old(deadline).value else f.time)
    {
      hide Sound, Countable, Wired, Untouched, Follow, LegsOf, Activity, ObserveFault, ObserveEvents, FrameFits, Regressed, SameTimes, NoTimes,
        BasketSizing.ValidLimits;
      fault := BeginRecord(f);
      if fault.None? {
        if !expired {
          SameNeeds(f);
        }
        ghost var begun := Books();
        fault := Continue(f);
        if fault.None? && old(firstTime).None? {
          NoTimesSame(begun, Books(), f.time);
        }
      }
    }

    /** What a record needs depends on the connection, the cached markets and the baskets' legs and
        episodes only. */
    twostate lemma SameNeeds(f: Frame)
      requires old(Wired(markets, indexes, baskets)) && Wired(markets, indexes, baskets)
      requires LegsOf(baskets) == LegsOf(old(baskets)) && Activity(baskets) == Activity(old(baskets))
      requires generation == old(generation) && markets == old(markets) && active == old(active) && events == old(events)
      ensures ObserveFault(f) == old(ObserveFault(f)) && ObserveEvents(f) == old(ObserveEvents(f))
    {
      hide Wired, UpdateFault, AllMetered;
      assert |Activity(baskets)| == |baskets| && |Activity(old(baskets))| == |old(baskets)|;
    }

    /** A record whose clocks are in order: the validity's end, and the market part. */
    method Continue(f: Frame) returns (fault: Option<Fault>)
      requires firstTime.Some? && !finished && events <= maximumEvents && Sound(Books(), mark) && Wired(markets, indexes, baskets) && FrameFits(f)
      requires BasketSizing.ValidLimits(limits) && validFrom < validUntil && f.wall.Some? && validFrom <= f.wall.value
      requires 0 <= f.time <= latest && lastTime == Some(f.time) && 0 <= firstTime.value <= mark
      requires !expired ==> mark == f.time && (deadline.Some? ==> f.time < deadline.value)
      requires expired ==> deadline.None? && mark <= latest && forall i :: 0 <= i < |baskets| ==> baskets[i].since == mark && !baskets[i].active
      modifies this
      ensures fault == old(ValidityFault(f))
      ensures fault.None? ==> Valid() && !finished && events == old(ValidityEvents(f)) && |baskets| == |old(baskets)|
      ensures fault.None? ==> firstTime == old(firstTime) && lastTime == old(lastTime) && latest == old(latest)
      ensures fault.None? ==> expired == (old(expired) || f.wall.value >= validUntil)
      ensures fault.None? && !expired ==>
        && deadline == Some(var mapped := f.time + (validUntil - f.wall.value); if old(deadline).Some? then Min(old(deadline).value, mapped) else mapped)
        && (!f.connected ==> active == 0)
        && var dropped := !f.connected || f.generation != old(generation);
           forall i :: 0 <= i < |baskets| ==>
             Follow(f, dropped, indexes, old(markets), limits, i, old(baskets)[i].markets, old(baskets)[i].status, baskets[i].status)
      ensures fault.None? && expired && !old(expired) ==> forall i :: 0 <= i < |baskets| ==> baskets[i].status == Expired
      ensures fault.None? && old(expired) ==> Books() == old(Books())
      ensures fault.None? && !old(expired) ==> SameTimes(old(Books()), Books(), f.time)
      ensures fault.None? ==>
        maximumActive == if !expired && f.connected && f.market.Some? && f.applied then Max(old(maximumActive), active) else old(maximumActive)
    {
      hide Sound, Countable, Wired, Untouched, Follow, ObserveFault, ObserveEvents, FrameFits, SameTimes, BasketSizing.ValidLimits;
      fault := None;
      if f.wall.value >= validUntil {
        if !expired {
          SoundIsCountable(Books(), f.time);
          fault := Expire(f.time);
          return;
        }
      } else if !expired {
        fault := MapDeadline(f.time, validUntil - f.wall.value);
        if fault.Some? {
          return;
        }
      }
      if !expired {
        fault := Observe(f);
      }
    }

    /** The clock checks of a record; the first one starts the accounts. */
    method BeginRecord(f: Frame) returns (fault: Option<Fault>)
      requires Valid() && FitsInt64(f.time)
      modifies this`firstTime, this`lastTime, this`latest, this`expired, this`deadline, this`mark, this`baskets, this`active,
        this`positiveUnion, this`unionSince, this`events
      ensures fault == if old(BeforeFault(f.time)).Some? then old(BeforeFault(f.time))
                       else if finished || f.wall.None? || f.wall.value < validFrom then Some(WallBinding)
                       else None
      ensures fault.None? ==> events == old(events) + (if old(Expires(f.time)) then old(active) else 0)
      ensures fault.None? ==>
        && f.wall.Some? && 0 <= f.time <= latest == Max(old(latest), f.time) && lastTime == Some(f.time)
        && firstTime == (if old(firstTime).Some? then old(firstTime) else Some(f.time)) && 0 <= firstTime.value <= mark <= latest
        && events <= maximumEvents && Sound(Books(), mark) && Wired(markets, indexes, baskets) && |baskets| == |old(baskets)|
        && expired == (old(expired) || (old(deadline).Some? && f.time >= old(deadline).value))
      ensures fault.None? && !expired ==>
        && mark == f.time && deadline == old(deadline) && (deadline.Some? ==> f.time < deadline.value) && active == old(active)
        && LegsOf(baskets) == LegsOf(old(baskets)) && Activity(baskets) == Activity(old(baskets))
        && forall i :: 0 <= i < |baskets| ==> baskets[i].status == old(baskets)[i].status && baskets[i].markets == old(baskets)[i].markets
      ensures fault.None? && expired ==>
        && deadline.None? && (old(expired) ==> baskets == old(baskets))
        && forall i :: 0 <= i < |baskets| ==> baskets[i].since == mark && !baskets[i].active && (baskets[i].status == Expired || old(expired))
      ensures fault.None? && old(firstTime).None? ==> NoTimes(Books(), f.time)
      ensures fault.None? && old(firstTime).Some? ==> if old(Expires(f.time)) then SameTimes(old(Books()), Books(), old(deadline).value) else Books() == old(Books())
    {
      hide Sound, Countable, Wired, Untouched, LegsOf, Activity, SameTimes, NoTimes;
      fault := Before(f.time);
      if fault.Some? {
        return;
      }
      if finished || f.wall.None? || f.wall.value < validFrom {
        return Some(WallBinding);
      }
      if firstTime.None? {
        StartAccounts(f.time);
      } else if !expired {
        TimePasses(Books(), mark, f.time);
        mark := f.time;
      }
      lastTime := Some(f.time);
    }

    /** The validity's end on the monotonic clock; a wall clock set back never extends it. */
    method MapDeadline(time: int, remaining: int) returns (fault: Option<Fault>)
      modifies this`deadline
      ensures fault == if time + remaining > INT64_MAX then Some(DeadlineOverflow) else None
      ensures fault.None? ==>
        deadline == Some(if old(deadline).Some? then Min(old(deadline).value, time + remaining) else time + remaining)
    {
      if time > INT64_MAX - remaining {
        return Some(DeadlineOverflow);
      }
      var mapped := time + remaining;
      deadline := Some(if deadline.Some? then Min(deadline.value, mapped) else mapped);
      return None;
    }

    /** The market part of a record. */
    method Observe(f: Frame) returns (fault: Option<Fault>)
      requires firstTime.Some? && events <= maximumEvents && Sound(Books(), f.time) && Wired(markets, indexes, baskets) && FrameFits(f) && BasketSizing.ValidLimits(limits)
      modifies this`generation, this`markets, this`maximumActive, this`baskets, this`active, this`positiveUnion, this`unionSince, this`events
      ensures fault == old(ObserveFault(f))
      ensures fault.None? ==> events == old(ObserveEvents(f))
      ensures fault.None? && !f.connected ==> active == 0
      ensures fault.None? ==> events <= maximumEvents && Sound(Books(), f.time) && Wired(markets, indexes, baskets) && |baskets| == |old(baskets)|
      ensures fault.None? ==>
        var dropped := !f.connected || f.generation != old(generation);
        && markets == Recached(f, dropped, indexes, old(markets), limits.cap) && generation == (if dropped then f.generation else old(generation))
        && forall i :: 0 <= i < |baskets| ==>
             Follow(f, dropped, indexes, old(markets), limits, i, old(baskets)[i].markets, old(baskets)[i].status, baskets[i].status)
      ensures fault.None? ==> SameTimes(old(Books()), Books(), f.time)
      ensures fault.None? ==>
        maximumActive == if f.connected && f.market.Some? && f.applied then Max(old(maximumActive), active) else old(maximumActive)
    {
      hide Sound, Assessed, Updated, Usable, UpdateFault, AllMetered, Shaped, SameTimes;
      fault := Reconnect(f);
      if fault.Some? || !f.connected || f.market.None? {
        return;
      }
      if f.market.value !in indexes {
        return Some(OutsideCohort);
      }
      ghost var kept := Books();
      fault := UpdateMarket(f, indexes[f.market.value]);
      if fault.None? {
        SameTimesTrans(old(Books()), kept, Books(), f.time);
      }
    }

    /** Another connection, or none, invalidates every market and basket. */
    method Reconnect(f: Frame) returns (fault: Option<Fault>)
      requires firstTime.Some? && events <= maximumEvents && Sound(Books(), f.time) && Wired(markets, indexes, baskets)
      modifies this`generation, this`markets, this`baskets, this`active, this`positiveUnion, this`unionSince, this`events
      ensures fault == if old(Drops(f) && Full(active)) then Some(EventBudget) else None
      ensures fault.None? ==> CurrentMeter(totalBudget) == old(MeterOf(f)) && LegsOf(baskets) == LegsOf(old(baskets))
      ensures fault.None? ==> events <= maximumEvents && Sound(Books(), f.time) && Wired(markets, indexes, baskets) && |baskets| == |old(baskets)|
      ensures fault.None? ==>
        var dropped := !f.connected || f.generation != old(generation);
        && generation == (if dropped then f.generation else old(generation))
        && (if dropped then markets == seq(|old(markets)|, i requires 0 <= i < |old(markets)| => old(markets)[i].(valid := false)) && active == 0
            else markets == old(markets) && baskets == old(baskets))
        && forall i :: 0 <= i < |baskets| ==>
             baskets[i].markets == old(baskets)[i].markets && baskets[i].status == if dropped then Unavailable else old(baskets)[i].status
      ensures fault.None? ==> SameTimes(old(Books()), Books(), f.time)
    {
      hide Sound, Countable, SameTimes;
      SoundIsSame(Books(), f.time);
      fault := None;
      if !f.connected || f.generation != generation {
        SoundIsCountable(Books(), f.time);
        generation := f.generation;
        var before := markets;
        markets := seq(|before|, i requires 0 <= i < |before| => before[i].(valid := false));
        fault := MarkAll(f.time, Unavailable);
      }
    }

    /** One market's book has changed: its cache follows and its baskets are evaluated or dropped. */
    method UpdateMarket(f: Frame, index: nat) returns (fault: Option<Fault>)
      requires firstTime.Some? && events <= maximumEvents && Sound(Books(), f.time) && Wired(markets, indexes, baskets) && FrameFits(f) && BasketSizing.ValidLimits(limits)
      requires index < |markets|
      modifies this`markets, this`maximumActive, this`baskets, this`active, this`positiveUnion, this`unionSince, this`events
      ensures markets == (if f.applied then old(markets)[index := Updated(old(markets)[index], f.bookValid, f.bids, f.asks, limits.cap)]
                          else if !f.bookValid then old(markets)[index := old(markets)[index].(valid := false)] else old(markets))
      ensures
        var u, m := Update(LegsOf(old(baskets)), markets, limits, maximumEvents, !f.applied), old(CurrentMeter(totalBudget));
        if f.applied || !f.bookValid then
          && fault == UpdateFault(u, m, old(markets)[index].dependencies)
          && (fault.None? ==> events == AllMetered(u, m, old(markets)[index].dependencies).events)
        else fault.None? && events == old(events)
      ensures fault.None? ==> events <= maximumEvents && Sound(Books(), f.time) && Wired(markets, indexes, baskets) && |baskets| == |old(baskets)|
      ensures fault.None? ==>
        forall i :: 0 <= i < |baskets| ==>
             && baskets[i].markets == old(baskets)[i].markets
             && baskets[i].status ==
                if (f.applied || !f.bookValid) && i in old(markets)[index].dependencies
                then if f.applied then Assessed(old(baskets)[i].markets, markets, limits) else Unavailable
                else old(baskets)[i].status
      ensures fault.None? ==> SameTimes(old(Books()), Books(), f.time)
      ensures fault.None? ==> maximumActive == if f.applied then Max(old(maximumActive), active) else old(maximumActive)
    {
      hide Sound, Assessed, Updated, Usable, SameTimes;
      SoundIsSame(Books(), f.time);
      fault := None;
      var cache := markets[index];
      if !f.applied {
        if !f.bookValid {
          InvalidUsable(cache);
          markets := markets[index := cache.(valid := false)];
          RewiredBaskets(old(markets), markets, indexes, baskets, index);
          fault := EachDependent(cache.dependencies, f, true);
        }
        return;
      }
      assert Usable(cache);
      FeeOfUsable(cache);
      UpdatedUsable(cache, f.bookValid, f.bids, f.asks, limits.cap);
      UpdatedShape(cache, f.bookValid, f.bids, f.asks, limits.cap);
      var updated := UpdateCache(cache, f.bookValid, f.bids, f.asks, limits.cap);
      markets := markets[index := updated];
      RewiredBaskets(old(markets), markets, indexes, baskets, index);
      fault := EachDependent(cache.dependencies, f, false);
      maximumActive := if active > maximumActive then active else maximumActive;
    }

    /** Drops or evaluates the baskets of one market, and leaves the others alone. */
    method EachDependent(dependencies: seq<nat>, f: Frame, drop: bool) returns (fault: Option<Fault>)
      requires firstTime.Some? && events <= maximumEvents && Sound(Books(), f.time) && Wired(markets, indexes, baskets)
      requires forall k :: 0 <= k < |dependencies| ==> dependencies[k] < |baskets|
      requires BasketSizing.ValidLimits(limits)
      modifies this`baskets, this`active, this`positiveUnion, this`unionSince, this`events
      ensures fault == UpdateFault(old(CurrentUpdate(drop)), old(CurrentMeter(totalBudget)), dependencies)
      ensures fault.None? ==> events == AllMetered(old(CurrentUpdate(drop)), old(CurrentMeter(totalBudget)), dependencies).events
      ensures fault.None? ==> events <= maximumEvents && Sound(Books(), f.time) && Wired(markets, indexes, baskets) && |baskets| == |old(baskets)|
      ensures fault.None? ==> forall i :: 0 <= i < |baskets| ==>
        && baskets[i].markets == old(baskets)[i].markets
        && if i in dependencies then baskets[i].status == if drop then Unavailable else Assessed(old(baskets)[i].markets, markets, limits)
           else baskets[i] == old(baskets)[i]
      ensures fault.None? ==> SameTimes(old(Books()), Books(), f.time)
    {
      hide Sound, Wired, Assessed, FaultAt, Metered, SameTimes;
      SoundIsSame(Books(), f.time);
      fault := None;
      var k, budget: nat := 0, totalBudget;
      ghost var s, u, m := Books(), CurrentUpdate(drop), CurrentMeter(totalBudget);
      assert dependencies[0..] == dependencies;
      while k < |dependencies|
        invariant k <= |dependencies| && |baskets| == |old(baskets)| && Sound(Books(), f.time) && events <= maximumEvents && fault == None
        invariant Wired(markets, indexes, baskets)
        invariant forall j :: 0 <= j < |baskets| ==> baskets[j].markets == old(baskets)[j].markets
        invariant forall j :: 0 <= j < |baskets| ==>
          if j in dependencies[..k] then baskets[j].status == if drop then Unavailable else Assessed(old(baskets)[j].markets, markets, limits)
          else baskets[j] == old(baskets)[j]
        invariant CurrentUpdate(drop) == u
        invariant SameTimes(s, Books(), f.time)
        invariant UpdateFault(u, m, dependencies) == UpdateFault(u, CurrentMeter(budget), dependencies[k..])
        invariant AllMetered(u, m, dependencies) == AllMetered(u, CurrentMeter(budget), dependencies[k..])
      {
        assert dependencies[..k + 1] == dependencies[..k] + [dependencies[k]];
        assert dependencies[k..][0] == dependencies[k] && dependencies[k..][1..] == dependencies[k + 1..];
        fault, budget := Dependent(dependencies[k], f, drop, budget, s);
        if fault.Some? {
          return;
        }
        k := k + 1;
      }
      assert dependencies[..k] == dependencies;
    }

    /** One of them. */
    method Dependent(i: nat, f: Frame, drop: bool, budget: nat, ghost s: Accounts) returns (fault: Option<Fault>, left: nat)
      requires firstTime.Some? && events <= maximumEvents && Sound(Books(), f.time) && Wired(markets, indexes, baskets) && i < |baskets|
      requires BasketSizing.ValidLimits(limits) && SameTimes(s, Books(), f.time)
      modifies this`baskets, this`active, this`positiveUnion, this`unionSince, this`events
      ensures fault == FaultAt(old(CurrentUpdate(drop)), old(CurrentMeter(budget)), i)
      ensures fault.None? ==> CurrentMeter(left) == Metered(old(CurrentUpdate(drop)), old(CurrentMeter(budget)), i)
      ensures fault.None? ==> CurrentUpdate(drop) == old(CurrentUpdate(drop))
      ensures fault.None? ==> events <= maximumEvents && Sound(Books(), f.time) && Wired(markets, indexes, baskets)
      ensures fault.None? ==>
        && |baskets| == |old(baskets)| && baskets == old(baskets)[i := baskets[i]] && baskets[i].markets == old(baskets[i].markets)
        && baskets[i].status == if drop then Unavailable else Assessed(old(baskets[i].markets), markets, limits)
      ensures fault.None? ==> SameTimes(s, Books(), f.time)
    {
      hide Sound, Countable, MadeUnavailable, Evaluated, StatusOf, Classified, Found, Usable, Shaped, FaultAt, Metered, LegsOf, Activity, SameTimes;
      ghost var found := Found(baskets[i].markets, markets, limits);
      SoundIsCountable(Books(), f.time);
      SoundIsTallied(Books(), f.time, i);
      MadeUnavailableFollows(baskets[i], Unavailable, f.time);
      ClassifiedMarkets(baskets[i], markets, found, f.time);
      ClassifiedStatus(baskets[i], markets, found, f.time);
      AllTallied(Books(), f.time);
      ClassifiedFollows(baskets[i], markets, found, f.time);
      ghost var b := if drop then MadeUnavailable(baskets[i], Unavailable, f.time) else Classified(baskets[i], markets, found, f.time);
      OneChanged(baskets, i, b);
      OneSameTime(Books(), i, b, f.time);
      SameTimesTrans(s, Books(), Switched(Books(), i, b, f.time), f.time);
      DependentMeter(i, drop, budget);
      left := budget;
      if drop {
        fault := MarkUnavailable(i, f.time, Unavailable);
      } else {
        fault, left := Evaluate(i, f.time, budget);
      }
    }

    lemma DependentMeter(i: nat, drop: bool, budget: nat)
      requires i < |baskets|
      ensures var m := CurrentMeter(budget);
        && m.active[i] == baskets[i].active && |m.active| == |CurrentUpdate(drop).legs| == |baskets|
        && Metered(CurrentUpdate(drop), m, i).active
          == m.active[i := (if drop then Unavailable else Assessed(baskets[i].markets, markets, limits)) == Positive]
        && (drop ==>
              && (events <= maximumEvents ==> FaultAt(CurrentUpdate(drop), m, i) == if baskets[i].active && Full(1) then Some(EventBudget) else None)
              && Metered(CurrentUpdate(drop), m, i).budget == budget
              && Metered(CurrentUpdate(drop), m, i).events == events + (if baskets[i].active then 1 else 0))
    {
      hide Assessed;
      FaultUnfolds(CurrentUpdate(drop), CurrentMeter(budget), i);
    }

    /** An expiry that an earlier callback accounted at a deadline after `time`. */
    predicate Regresses(time: int)
      reads this`firstTime, this`lastTime, this`expired, this`finished, this`baskets
    {
      && !finished && 0 <= time && firstTime.Some? && lastTime.Some? && lastTime.value <= time
      && expired && baskets != [] && time < baskets[0].since
    }

    /** Closes every open episode and accounts the last intervals. */
    method FinishBaskets(time: int) returns (fault: Option<Fault>)
      requires firstTime.Some? && events <= maximumEvents && 0 < |baskets|
      requires forall i :: 0 <= i < |baskets| ==> Tallied(baskets[i])
      requires Sound(Books(), time) || (baskets[0].since > time && !baskets[0].active)
      modifies this`baskets, this`active, this`positiveUnion, this`unionSince, this`events
      ensures fault == if old(baskets[0].since) > time then Some(IntervalRegression) else if old(Full(active)) then Some(EventBudget) else None
      ensures fault.None? ==> active == 0 && events == old(events) + old(active) <= maximumEvents
      ensures fault.None? ==> Finishing(old(Books()), Books(), |baskets|, time)
    {
      hide Sound, Finishing;
      ghost var s := Books();
      if baskets[0].since <= time {
        FinishBegins(s, time);
      } else {
        StartsLate(s, time);
      }
      fault := None;
      var i := 0;
      while i < |baskets|
        invariant i <= |baskets| == |s.baskets| && events <= maximumEvents && fault == None
        invariant if s.baskets[0].since <= time then Finishing(s, Books(), i, time) else i == 0 && Books() == s
        invariant events + active == old(events) + old(active)
      {
        ghost var t := Books();
        if s.baskets[0].since <= time {
          FinishStep(s, t, i, time);
        }
        fault := Close(i, time, true);
        if fault.Some? {
          assert t.active > 0;
          return;
        }
        fault := AccountTime(i, time);
        if fault.Some? {
          return;
        }
        assert baskets == t.baskets[i := Accounted(Closed(t.baskets[i], true), time)];
        i := i + 1;
      }
      FinishingEnds(s, Books(), time);
    }

    /** The end of the observation. Interval clocks regress only when the end is before an expiry
        that an earlier callback has already accounted. Otherwise every basket's durations fill
        the whole observation, and the union lies between the longest and the sum of the
        positive times. */
    method Finish(time: int) returns (fault: Option<Fault>)
      requires Valid() && FitsInt64(time)
      modifies this
      ensures fault == old(FinishFault(time))
      ensures fault == Some(IntervalRegression) <==> old(Regresses(time))
      ensures old(latest) <= time ==> fault != Some(IntervalRegression)
      ensures fault.None? ==> Valid() && finished && |baskets| == |old(baskets)|
      ensures fault.None? ==> events == if old(finished) then old(events) else old(events) + old(active)
      ensures fault.None? && !old(finished) && firstTime.Some? ==> Complete(Books(), time)
      ensures fault.None? && !old(finished) && firstTime.Some? && expired == old(expired) ==>
        forall i :: 0 <= i < |baskets| ==> Finished(old(baskets)[i], baskets[i], firstTime.value, time)
      ensures fault.None? && !old(finished) && firstTime.Some? ==>
        if old(Expires(time)) then TimesAfterExpiry(old(Books()), Books(), old(deadline).value, time) else SameTimes(old(Books()), Books(), time)
    {
      hide Untouched, Sound, Countable, Complete, Finished, Wired, SameTimes, TimesAfterExpiry, BasketSizing.ValidLimits;
      WiredHasBaskets(markets, indexes, baskets);
      if finished {
        return None;
      }
      fault := Before(time);
      if fault.Some? {
        return;
      }
      if firstTime.None? {
        finished, lastTime := true, Some(time);
        return;
      }
      WiredHasBaskets(markets, indexes, baskets);
      ghost var before := Books();
      fault := EndAccounts(time);
      if fault.None? && old(Expires(time)) {
        ExpiryThenEnd(old(Books()), before, Books(), old(deadline).value, time);
      }
    }

    /** Finishes all baskets and the union, once time has passed. */
    method EndAccounts(time: int) returns (fault: Option<Fault>)
      requires Valid() && !finished && firstTime.Some? && lastTime.value <= time && 0 <= time <= latest && baskets != []
      requires deadline.Some? ==> time < deadline.value
      modifies this
      ensures fault == if old(expired && time < baskets[0].since) then Some(IntervalRegression)
                       else if old(Full(active)) then Some(EventBudget) else None
      ensures fault.Some? ==> firstTime == old(firstTime)
      ensures fault.None? ==> Valid() && finished && |baskets| == |old(baskets)| && events == old(events) + old(active)
      ensures fault.None? ==> firstTime == old(firstTime) && expired == old(expired) && Complete(Books(), time)
      ensures fault.None? ==> forall i :: 0 <= i < |baskets| ==> Finished(old(baskets)[i], baskets[i], firstTime.value, time)
      ensures fault.None? ==> SameTimes(old(Books()), Books(), time)
    {
      hide Untouched, Sound, Countable, Finishing, Complete, Finished, Wired, SameTimes, BasketSizing.ValidLimits;
      ghost var s := Books();
      AllTallied(s, mark);
      if time >= mark {
        TimePasses(s, mark, time);
      }
      fault := FinishBaskets(time);
      if fault.Some? {
        return;
      }
      ghost var t := Books();
      FinishingEnds(s, t, time);
      fault := AccountUnion(time);
      lastTime, finished, mark := Some(time), true, time;
      FinishedWired(markets, indexes, s.baskets, baskets, s.first, time);
      FinishedSame(s, t, time);
    }
  }

  lemma AllTallied(s: Accounts, time: int)
    requires Sound(s, time)
    ensures forall i :: 0 <= i < |s.baskets| ==> Tallied(s.baskets[i]) && s.baskets[i].since <= time
  {
  }

  /** The whole observation is accounted: every basket's durations fill it, and the union lies
      between the longest and the sum of the positive durations. */
  ghost predicate Complete(s: Accounts, time: int) {
    && (forall i :: 0 <= i < |s.baskets| ==>
          && Tallied(s.baskets[i]) && !s.baskets[i].active && Total(s.baskets[i].durations) == time - s.first
          && PositiveBy(s.baskets[i], time) == s.baskets[i].durations[Index(Positive)] <= s.union)
    && s.union <= PositiveSum(s.baskets, time)
  }

  lemma FinishingEnds(s: Accounts, t: Accounts, time: int)
    requires Finishing(s, t, |t.baskets|, time)
    ensures t.unionSince <= time && Complete(UnionAccounted(t, time), time) && |t.baskets| == |s.baskets|
    ensures t.active == 0 && Countable(UnionAccounted(t, time), time)
    ensures forall i :: 0 <= i < |t.baskets| ==> Finished(s.baskets[i], t.baskets[i], s.first, time)
  {
    hide PositiveSum, Total;
    ZeroActive(t.baskets);
  }

  lemma SoundIsTallied(s: Accounts, time: int, i: nat)
    requires Sound(s, time) && i < |s.baskets|
    ensures Tallied(s.baskets[i]) && s.baskets[i].since <= time
  {
  }

  lemma CountableIsTallied(s: Accounts, time: int, i: nat)
    requires Countable(s, time) && i < |s.baskets|
    ensures Tallied(s.baskets[i]) && (s.baskets[i].active ==> s.active > 0)
  {
    ActiveUpdate(s.baskets, i, s.baskets[i]);
  }

  lemma SoundIsSame(s: Accounts, time: int)
    requires Sound(s, time)
    ensures SameTimes(s, s, time)
  {
    Unchanged(s, time);
  }

  lemma CountablesTallied(s: Accounts, time: int)
    requires Countable(s, time)
    ensures forall i :: 0 <= i < |s.baskets| ==> Tallied(s.baskets[i])
  {
  }

  lemma NoneActive(s: Accounts, time: int)
    requires Countable(s, time) && forall i :: 0 <= i < |s.baskets| ==> !s.baskets[i].active
    ensures s.active == 0
  {
    ZeroActive(s.baskets);
  }

  lemma {:induction false} ZeroActive(bs: seq<Basket>)
    requires forall i :: 0 <= i < |bs| ==> !bs[i].active
    ensures ActiveCount(bs) == 0
    decreases bs
  {
    if bs != [] {
      ZeroActive(bs[1..]);
    }
  }

  lemma FeeOfUsable(m: CachedMarket)
    requires Usable(m)
    ensures ValidFee(m.fee)
  {
  }

  lemma InvalidUsable(m: CachedMarket)
    requires Usable(m)
    ensures Usable(m.(valid := false))
  {
  }

  lemma UpdatedShape(m: CachedMarket, valid: bool, bids: seq<Level>, asks: seq<Level>, cap: nat)
    ensures var u := Updated(m, valid, bids, asks, cap); u.dependencies == m.dependencies && u.needYes == m.needYes && u.needNo == m.needNo
  {
  }

  lemma SameLegs(markets: seq<CachedMarket>, indexes: map<nat, nat>, baskets: seq<Basket>, baskets': seq<Basket>)
    requires Wired(markets, indexes, baskets) && |baskets'| == |baskets|
    requires forall i :: 0 <= i < |baskets| ==> baskets'[i].markets == baskets[i].markets
    ensures Wired(markets, indexes, baskets')
  {
    hide Usable, Shaped;
  }

  lemma FinishedWired(markets: seq<CachedMarket>, indexes: map<nat, nat>, baskets: seq<Basket>, baskets': seq<Basket>, first: int, time: int)
    requires Wired(markets, indexes, baskets) && |baskets'| == |baskets|
    requires forall i :: 0 <= i < |baskets| ==> Finished(baskets[i], baskets'[i], first, time)
    ensures Wired(markets, indexes, baskets')
  {
    hide Wired, Total;
    SameLegs(markets, indexes, baskets, baskets');
  }

  lemma FinishedSame(s: Accounts, t: Accounts, time: int)
    requires Finishing(s, t, |t.baskets|, time)
    ensures SameTimes(s, UnionAccounted(t, time), time)
  {
    hide Total, PositiveSum, ActiveCount, Bounded;
    forall i | 0 <= i < |s.baskets| ensures SameTime(s.baskets[i], t.baskets[i], time) {
      assert Finished(s.baskets[i], t.baskets[i], s.first, time);
    }
  }

  /** The policy expired at `deadline` and the end followed: in between every basket was expired. */
  ghost predicate TimesAfterExpiry(s: Accounts, t: Accounts, deadline: int, time: int) {
    && |s.baskets| == |t.baskets| && UnionBy(t, time) == UnionBy(s, deadline)
    && forall i :: 0 <= i < |s.baskets| ==> ExpiredFor(s.baskets[i], t.baskets[i], deadline, time)
  }

  ghost predicate ExpiredFor(b: Basket, c: Basket, deadline: int, time: int) {
    && Tallied(b) && Tallied(c)
    && forall s: Status :: TimeIn(c, s, time) == TimeIn(b, s, deadline) + (if s == Expired then time - deadline else 0)
  }

  lemma ExpiryThenEnd(s: Accounts, t: Accounts, u: Accounts, deadline: int, time: int)
    requires SameTimes(s, t, deadline) && SameTimes(t, u, time) && t.active == 0
    requires forall i :: 0 <= i < |t.baskets| ==> t.baskets[i].status == Expired
    ensures TimesAfterExpiry(s, u, deadline, time)
  {
    hide TimeIn;
    forall i | 0 <= i < |s.baskets| ensures ExpiredFor(s.baskets[i], u.baskets[i], deadline, time) {
      var b, c, d := s.baskets[i], t.baskets[i], u.baskets[i];
      assert SameTime(b, c, deadline) && SameTime(c, d, time);
      forall s: Status ensures TimeIn(d, s, time) == TimeIn(b, s, deadline) + (if s == Expired then time - deadline else 0) {
        TimeInGrows(c, s, deadline, time);
      }
    }
  }

  lemma WiredHasBaskets(markets: seq<CachedMarket>, indexes: map<nat, nat>, baskets: seq<Basket>)
    requires Wired(markets, indexes, baskets)
    ensures 0 < |baskets|
  {
  }

  /** Replacing one market's cache keeps the wiring. */
  lemma RewiredBaskets(markets: seq<CachedMarket>, markets': seq<CachedMarket>, indexes: map<nat, nat>, baskets: seq<Basket>, index: nat)
    requires Wired(markets, indexes, baskets) && index < |markets| && |markets'| == |markets| && markets' == markets[index := markets'[index]]
    requires Usable(markets'[index])
    requires markets'[index].dependencies == markets[index].dependencies
    requires markets'[index].needYes == markets[index].needYes && markets'[index].needNo == markets[index].needNo
    ensures Wired(markets', indexes, baskets)
  {
    hide Usable;
  }

  lemma ClassifiedFollows(b: Basket, markets: seq<CachedMarket>, found: Status, time: int)
    requires Tallied(b)
    ensures Follows(b, Classified(b, markets, found, time), time)
  {
    MadeUnavailableFollows(b, Unavailable, time);
    MadeUnavailableFollows(b, Crossed, time);
    EvaluatedFollows(b, found, time);
    hide Follows, MadeUnavailable, Evaluated, FirstBad;
  }

  lemma ClassifiedMarkets(b: Basket, markets: seq<CachedMarket>, found: Status, time: int)
    requires Tallied(b)
    ensures Classified(b, markets, found, time).markets == b.markets
  {
  }

  /** The first i baskets are finished at `time`; nothing that is due by then has changed. */
  ghost predicate Finishing(s: Accounts, t: Accounts, i: nat, time: int) {
    && t.first == s.first && |t.baskets| == |s.baskets| && i <= |s.baskets| && t.unionSince <= time && UnionBy(t, time) == UnionBy(s, time)
    && (forall j :: 0 <= j < |t.baskets| ==> Tallied(t.baskets[j]))
    && Bounded(t, time) && t.active == ActiveCount(t.baskets)
    && (forall j :: 0 <= j < i ==> Finished(s.baskets[j], t.baskets[j], s.first, time))
    && (forall j :: i <= j < |t.baskets| ==> t.baskets[j] == s.baskets[j] && Waiting(s.baskets[j], s.first, time))
  }

  predicate Waiting(b: Basket, first: int, time: int) {
    b.since <= time && Total(b.durations) == b.since - first
  }

  /** An open episode is closed, and the last interval accounted. */
  predicate Finished(b: Basket, c: Basket, first: int, time: int) {
    && Tallied(b) && Tallied(c) && c == Accounted(Closed(b, true), time)
    && !c.active && c.since == time && Total(c.durations) == time - first
  }

  lemma FinishBegins(s: Accounts, time: int)
    requires 0 < |s.baskets| && Sound(s, time)
    ensures Finishing(s, s, 0, time)
  {
  }

  lemma StartsLate(s: Accounts, time: int)
    requires 0 < |s.baskets| && s.baskets[0].since > time
    ensures !Sound(s, time)
  {
  }

  lemma FinishStep(s: Accounts, t: Accounts, i: nat, time: int)
    requires Finishing(s, t, i, time) && i < |s.baskets|
    ensures i < |t.baskets| && Tallied(t.baskets[i]) && t.baskets[i].since <= time && t.unionSince <= time
    ensures t.baskets[i].active ==> t.active > 0
    ensures Tallied(Closed(t.baskets[i], true)) && Closed(t.baskets[i], true).since == t.baskets[i].since
    ensures var b := t.baskets[i];
      var u := if b.active then UnionAccounted(t, time).(active := t.active - 1) else t;
      Finishing(s, u.(baskets := t.baskets[i := Accounted(Closed(b, true), time)]), i + 1, time)
  {
    hide Total, ActiveCount, PositiveSum;
    var b := t.baskets[i];
    var c := Accounted(Closed(b, true), time);
    ActiveUpdate(t.baskets, i, c);
    AccountedMeaning(Closed(b, true), time);
    assert PositiveBy(c.(status := c.status), time) == PositiveBy(b, time);
    assert c.(status := c.status) == c;
    PositiveSumUpdate(t.baskets, i, c, time);
    var u := (if b.active then UnionAccounted(t, time).(active := t.active - 1) else t).(baskets := t.baskets[i := c]);
    assert UnionBy(u, time) == UnionBy(t, time);
    forall j | 0 <= j < |u.baskets| ensures PositiveBy(u.baskets[j], time) <= UnionBy(u, time) {
      assert j != i ==> u.baskets[j] == t.baskets[j];
    }
  }

  lemma FreshSound(s: Accounts, before: seq<Basket>)
    requires |s.baskets| == |before| && s.active == 0 && s.union == 0 && s.unionSince == s.first
    requires forall i :: 0 <= i < |before| ==> Untouched(before[i]) && s.baskets[i] == before[i].(since := s.first)
    ensures Sound(s, s.first)
  {
    NothingPositive(s.baskets, s.first);
  }

  lemma NothingTimed(before: seq<Basket>, s: Accounts, time: int)
    requires |s.baskets| == |before| && s.active == 0 && s.union == 0
    requires forall i :: 0 <= i < |before| ==> Untouched(before[i]) && s.baskets[i] == before[i].(since := time)
    ensures NoTimes(s, time)
  {
    forall i | 0 <= i < |before| ensures NoTime(s.baskets[i], time) {
      assert Untouched(before[i]);
    }
  }

  lemma {:induction false} NothingPositive(bs: seq<Basket>, time: int)
    requires forall i :: 0 <= i < |bs| ==> Tallied(bs[i]) && !bs[i].active && bs[i].status != Positive && bs[i].durations[Index(Positive)] == 0
    ensures ActiveCount(bs) == 0 && PositiveSum(bs, time) == 0
    decreases bs
  {
    if bs != [] {
      NothingPositive(bs[1..], time);
    }
  }

  /** Expiry is accounted at the deadline, not at the callback that notices it, and that callback
      does not move the clock that later callbacks are checked against. Here a callback at 100
      accounts an expiry at 90; an end at 80, which the clock check lets pass, then fails. Drivers
      that end no earlier than their last callback never get there. */
  method ExpiryThenEarlierEnd() returns (first: Option<Fault>, second: Option<Fault>, third: Option<Fault>)
    ensures first == None && second == None && third == Some(IntervalRegression)
  {
    hide Follow, Sound, Countable, Complete, Finished, UpdateFault, AllMetered, Recached, Concerns, SameTimes, NoTimes, TimesAfterExpiry;
    var legs: seq<seq<nat>> := [[0, 1, 1]];
    var limits := DepthWalk.SizingLimits(100, 100, 0, 0, 1);
    var fee := FeePolicy(0, 100);
    var yes, no := CachedMarket(false, false, [0], fee, true, false, [], []), CachedMarket(false, false, [0], fee, false, true, [], []);
    var o := new Observation(0, 100, 10, limits, 1, [yes, no], map[], legs);
    first := o.After(Frame(50, Some(60), None, false, false, None, false, [], []));
    second := o.Before(100);
    third := o.Finish(80);
  }
}
