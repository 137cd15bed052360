/** Queue-priority sensitivity model for one resting order (include/eme/core/passive_queue.hpp):
    trades consume the priority ahead of the order, and in the favorable scenario displayed
    reductions that no trade explains within a window are taken to be cancellations ahead. */
module PassiveQueues {
  import opened FixedPoint

  const RECONCILIATION_BUDGET := 1024

  datatype Change = Change(time: int, quantity: nat)

  /** The state of a queue. */
  datatype Queue = Queue(ahead: nat, displayed: nat, reductions: seq<Change>, credits: seq<Change>)

  function Total(c: seq<Change>): nat {
    if c == [] then 0 else c[0].quantity + Total(c[1..])
  }

  // ------------------------------------------------------------------------
  // What each operation does to the state
  // ------------------------------------------------------------------------

  predicate Expired(c: seq<Change>, time: int, window: int) {
    c != [] && time - c[0].time > window
  }

  function Unexpired(c: seq<Change>, time: int, window: int): (r: seq<Change>)
    ensures |r| <= |c|
  {
    if Expired(c, time, window) then Unexpired(c[1..], time, window) else c
  }

  /** Priority left after the expired changes have been taken off it, one by one. */
  function Drained(ahead: nat, c: seq<Change>, time: int, window: int): nat {
    if Expired(c, time, window) then Drained(Max(0, ahead - c[0].quantity), c[1..], time, window) else ahead
  }

  function Advanced(s: Queue, favorable: bool, window: int, time: int): Queue {
    Queue(if favorable then Drained(s.ahead, s.reductions, time, window) else s.ahead, s.displayed,
          Unexpired(s.reductions, time, window), Unexpired(s.credits, time, window))
  }

  /** Uses up q against the oldest changes first; returns what is left of both. */
  function Matched(c: seq<Change>, q: nat): (seq<Change>, nat)
    decreases c
  {
    if q == 0 || c == [] then (c, q)
    else if q < c[0].quantity then ([c[0].(quantity := c[0].quantity - q)] + c[1..], 0)
    else Matched(c[1..], q - c[0].quantity)
  }

  function Appended(c: seq<Change>, time: int, q: nat): Option<seq<Change>> {
    if q == 0 then Some(c)
    else if |c| >= RECONCILIATION_BUDGET then None
    else Some(c + [Change(time, q)])
  }

  function AfterDepth(s: Queue, favorable: bool, window: int, time: int, displayed: nat): Option<Queue> {
    var a := Advanced(s, favorable, window, time);
    var m := Matched(a.credits, Max(0, s.displayed - displayed));
    var r := Appended(a.reductions, time, m.1);
    if r.None? then None else Some(Queue(a.ahead, displayed, r.value, m.0))
  }

  function AfterTrade(s: Queue, favorable: bool, window: int, time: int, q: nat): Option<Queue> {
    var a := Advanced(s, favorable, window, time);
    var m := Matched(a.reductions, q);
    var c := Appended(a.credits, time, m.1);
    if c.None? then None else Some(Queue(a.ahead - Min(a.ahead, q), a.displayed, m.0, c.value))
  }

  /** What a trade of q leaves for the order once the priority ahead has been served. */
  function TradeExcess(s: Queue, favorable: bool, window: int, time: int, q: nat): nat {
    q - Min(Advanced(s, favorable, window, time).ahead, q)
  }

  // ------------------------------------------------------------------------
  // The class
  // ------------------------------------------------------------------------

  class PassiveQueue {
    var ahead: nat
    var displayed: nat
    const window: int
    const favorable: bool
    var reductions: seq<Change>
    var credits: seq<Change>

    constructor (displayed: nat, cancellationsAhead: bool, window: int)
      ensures State() == Queue(displayed, displayed, [], [])
      ensures favorable == cancellationsAhead && this.window == window
    {
      ahead, this.displayed, this.window, favorable := displayed, displayed, window, cancellationsAhead;
      reductions, credits := [], [];
    }

    function State(): Queue
      reads this
    {
      Queue(ahead, displayed, reductions, credits)
    }

    method Advance(time: int)
      modifies this
      ensures State() == Advanced(old(State()), favorable, window, time)
    {
      while reductions != [] && time - reductions[0].time > window
        invariant displayed == old(displayed) && credits == old(credits)
        invariant Unexpired(reductions, time, window) == Unexpired(old(reductions), time, window)
        invariant !favorable ==> ahead == old(ahead)
        invariant favorable ==>
          Drained(ahead, reductions, time, window) == Drained(old(ahead), old(reductions), time, window)
        decreases |reductions|
      {
        if favorable {
          ahead := Max(0, ahead - reductions[0].quantity);
        }
        reductions := reductions[1..];
      }
      while credits != [] && time - credits[0].time > window
        invariant displayed == old(displayed)
        invariant ahead == Advanced(old(State()), favorable, window, time).ahead
        invariant reductions == Advanced(old(State()), favorable, window, time).reductions
        invariant Unexpired(credits, time, window) == Unexpired(old(credits), time, window)
        decreases |credits|
      {
        credits := credits[1..];
      }
    }

    static method Match(changes: seq<Change>, quantity: nat) returns (left: seq<Change>, unmatched: nat)
      ensures (left, unmatched) == Matched(changes, quantity)
    {
      left, unmatched := changes, quantity;
      while unmatched > 0 && left != []
        invariant Matched(left, unmatched) == Matched(changes, quantity)
        decreases |left|, unmatched
      {
        var used := Min(unmatched, left[0].quantity);
        unmatched := unmatched - used;
        var front := left[0].quantity - used;
        left := if front == 0 then left[1..] else [left[0].(quantity := front)] + left[1..];
      }
    }

    static method Append(changes: seq<Change>, time: int, quantity: nat) returns (r: Option<seq<Change>>)
      ensures r == Appended(changes, time, quantity)
    {
      if quantity == 0 {
        return Some(changes);
      }
      if |changes| >= RECONCILIATION_BUDGET {
        return None;
      }
      return Some(changes + [Change(time, quantity)]);
    }

    /** False when the reconciliation budget is exceeded; the source throws then. */
    method Depth(time: int, newDisplayed: nat) returns (ok: bool)
      modifies this
      ensures ok <==> AfterDepth(old(State()), favorable, window, time, newDisplayed).Some?
      ensures ok ==> State() == AfterDepth(old(State()), favorable, window, time, newDisplayed).value
    {
      Advance(time);
      var reduction := Max(0, displayed - newDisplayed);
      displayed := newDisplayed;
      credits, reduction := Match(credits, reduction);
      var appended := Append(reductions, time, reduction);
      if appended.None? {
        return false;
      }
      reductions := appended.value;
      return true;
    }

    method Trade(time: int, quantity: nat, remaining: nat) returns (ok: bool, fill: nat)
      modifies this
      ensures ok <==> AfterTrade(old(State()), favorable, window, time, quantity).Some?
      ensures ok ==> State() == AfterTrade(old(State()), favorable, window, time, quantity).value
      ensures ok ==> fill == Min(remaining, TradeExcess(old(State()), favorable, window, time, quantity))
    {
      fill := 0;
      Advance(time);
      var unmatched;
      reductions, unmatched := Match(reductions, quantity);
      var appended := Append(credits, time, unmatched);
      if appended.None? {
        return false, 0;
      }
      credits := appended.value;
      var consumed := Min(ahead, quantity);
      ahead := ahead - consumed;
      return true, Min(remaining, quantity - consumed);
    }
  }

  // ------------------------------------------------------------------------
  // Runs
  // ------------------------------------------------------------------------

  datatype Event = Clock(time: int) | Displayed(time: int, displayed: nat) | Traded(time: int, quantity: nat)

  /** A queue with the order resting behind it: what it has been filled, and counters of
      everything that was traded, reduced, matched and expired. */
  datatype Run = Run(queue: Queue, filled: nat, traded: nat, reduced: nat, matched: nat,
                     expiredReductions: nat, expiredCredits: nat)

  function Start(displayed: nat): Run {
    Run(Queue(displayed, displayed, [], []), 0, 0, 0, 0, 0, 0)
  }

  function Elapse(r: Run, favorable: bool, window: int, time: int): Run {
    var a := Advanced(r.queue, favorable, window, time);
    ExpiryShrinks(r.queue.reductions, time, window);
    ExpiryShrinks(r.queue.credits, time, window);
    r.(queue := a,
       expiredReductions := r.expiredReductions + Total(r.queue.reductions) - Total(a.reductions),
       expiredCredits := r.expiredCredits + Total(r.queue.credits) - Total(a.credits))
  }

  /** One observed event; nothing when the reconciliation budget is exceeded. */
  function Observe(r: Run, favorable: bool, window: int, order: nat, e: Event): Option<Run>
    requires r.filled <= order
  {
    var a := Elapse(r, favorable, window, e.time);
    match e
    case Clock(_) => Some(a)
    case Displayed(time, displayed) =>
      var q := AfterDepth(r.queue, favorable, window, time, displayed);
      var reduction := Max(0, r.queue.displayed - displayed);
      MatchConserves(a.queue.credits, reduction);
      if q.None? then None
      else Some(a.(queue := q.value, reduced := r.reduced + reduction,
                   matched := r.matched + (reduction - Matched(a.queue.credits, reduction).1)))
    case Traded(time, quantity) =>
      var q := AfterTrade(r.queue, favorable, window, time, quantity);
      MatchConserves(a.queue.reductions, quantity);
      if q.None? then None
      else Some(a.(queue := q.value, traded := r.traded + quantity,
                   filled := r.filled + Min(order - r.filled, TradeExcess(r.queue, favorable, window, time, quantity)),
                   matched := r.matched + (quantity - Matched(a.queue.reductions, quantity).1)))
  }

  function Play(r: Run, favorable: bool, window: int, order: nat, events: seq<Event>): Option<Run>
    requires r.filled <= order
    decreases events
  {
    if events == [] then Some(r)
    else
      var next := Observe(r, favorable, window, order, events[0]);
      if next.None? then None else Play(next.value, favorable, window, order, events[1..])
  }

  // ------------------------------------------------------------------------
  // Matching and expiry
  // ------------------------------------------------------------------------

  lemma {:induction false} MatchConserves(c: seq<Change>, q: nat)
    ensures var m := Matched(c, q);
      && m.1 <= q && Total(c) - Total(m.0) == q - m.1
      && (m.1 == 0 || m.0 == [])
      && |m.0| <= |c| && (c == [] ==> m.0 == [])
    decreases c
  {
    if q == 0 || c == [] {
    } else if q < c[0].quantity {
      assert ([c[0].(quantity := c[0].quantity - q)] + c[1..])[1..] == c[1..];
    } else {
      MatchConserves(c[1..], q - c[0].quantity);
    }
  }

  lemma {:induction false} ExpiryShrinks(c: seq<Change>, time: int, window: int)
    ensures Total(Unexpired(c, time, window)) <= Total(c)
    ensures c == [] ==> Unexpired(c, time, window) == []
  {
    if Expired(c, time, window) {
      ExpiryShrinks(c[1..], time, window);
    }
  }

  lemma {:induction false} AppendAdds(c: seq<Change>, x: Change)
    ensures Total(c + [x]) == Total(c) + x.quantity
  {
    if c == [] {
      assert c + [x] == [x];
    } else {
      assert (c + [x])[1..] == c[1..] + [x];
      AppendAdds(c[1..], x);
    }
  }

  lemma {:induction false} DrainBounds(ahead: nat, ahead': nat, c: seq<Change>, time: int, window: int)
    requires ahead <= ahead'
    ensures Drained(ahead, c, time, window) <= Drained(ahead', c, time, window) <= ahead'
    ensures ahead - (Total(c) - Total(Unexpired(c, time, window))) <= Drained(ahead, c, time, window)
    decreases c
  {
    if Expired(c, time, window) {
      DrainBounds(Max(0, ahead - c[0].quantity), Max(0, ahead' - c[0].quantity), c[1..], time, window);
    }
  }

  // ------------------------------------------------------------------------
  // What every run keeps
  // ------------------------------------------------------------------------

  /** At least one deque is empty, and both flows are conserved: every reduction and every
      traded quantity is matched, pending or expired, and both sides match the same amount. */
  predicate Reconciled(r: Run) {
    && (r.queue.reductions == [] || r.queue.credits == [])
    && r.reduced == r.matched + Total(r.queue.reductions) + r.expiredReductions
    && r.traded == r.matched + Total(r.queue.credits) + r.expiredCredits
  }

  lemma StepReconciles(r: Run, favorable: bool, window: int, order: nat, e: Event)
    requires r.filled <= order && Reconciled(r) && ChangesPositive(r.queue)
    ensures var n := Observe(r, favorable, window, order, e); n.Some? ==> n.value.filled <= order && Reconciled(n.value) && ChangesPositive(n.value.queue)
  {
    hide Matched, Unexpired, Drained, Total;
    var a := Elapse(r, favorable, window, e.time);
    ExpiryShrinks(r.queue.reductions, e.time, window);
    ExpiryShrinks(r.queue.credits, e.time, window);
    UnexpiredPositive(r.queue.reductions, e.time, window);
    UnexpiredPositive(r.queue.credits, e.time, window);
    match e
    case Clock(_) =>
    case Displayed(time, displayed) =>
      var reduction := Max(0, r.queue.displayed - displayed);
      MatchConserves(a.queue.credits, reduction);
      MatchPositive(a.queue.credits, reduction);
      AppendAdds(a.queue.reductions, Change(time, Matched(a.queue.credits, reduction).1));
    case Traded(time, quantity) =>
      MatchConserves(a.queue.reductions, quantity);
      MatchPositive(a.queue.reductions, quantity);
      AppendAdds(a.queue.credits, Change(time, Matched(a.queue.reductions, quantity).1));
  }

  predicate AllPositive(c: seq<Change>) {
    forall i :: 0 <= i < |c| ==> c[i].quantity > 0
  }

  predicate ChangesPositive(s: Queue) {
    AllPositive(s.reductions) && AllPositive(s.credits)
  }

  lemma {:induction false} MatchPositive(c: seq<Change>, q: nat)
    requires AllPositive(c)
    ensures AllPositive(Matched(c, q).0)
    decreases c
  {
    if q == 0 || c == [] || q < c[0].quantity {
    } else {
      MatchPositive(c[1..], q - c[0].quantity);
    }
  }

  lemma {:induction false} UnexpiredPositive(c: seq<Change>, time: int, window: int)
    requires AllPositive(c)
    ensures AllPositive(Unexpired(c, time, window))
  {
    if Expired(c, time, window) {
      UnexpiredPositive(c[1..], time, window);
    }
  }

  /** Every completed run is reconciled. */
  lemma {:induction false} RunReconciles(r: Run, favorable: bool, window: int, order: nat, events: seq<Event>)
    requires r.filled <= order && Reconciled(r) && ChangesPositive(r.queue)
    ensures var n := Play(r, favorable, window, order, events); n.Some? ==> Reconciled(n.value) && ChangesPositive(n.value.queue)
    decreases events
  {
    hide Reconciled, ChangesPositive, Observe;
    if events != [] {
      StepReconciles(r, favorable, window, order, events[0]);
      var next := Observe(r, favorable, window, order, events[0]);
      if next.Some? {
        RunReconciles(next.value, favorable, window, order, events[1..]);
      }
    }
  }

  /** A new queue has everything displayed ahead of the order, and nothing filled, counted or pending;
      every run from it is reconciled. */
  lemma RunFromStart(displayed: nat, favorable: bool, window: int, order: nat, events: seq<Event>)
    ensures Start(displayed) == Run(Queue(displayed, displayed, [], []), 0, 0, 0, 0, 0, 0)
    ensures var n := Play(Start(displayed), favorable, window, order, events); n.Some? ==> Reconciled(n.value)
  {
    RunReconciles(Start(displayed), favorable, window, order, events);
    hide Play;
  }

  // ------------------------------------------------------------------------
  // The reconciliation window
  // ------------------------------------------------------------------------

  /** Oldest first, none later than `now`, and none older than the window. */
  predicate Timely(c: seq<Change>, window: int, now: int) {
    && (forall i, j :: 0 <= i < j < |c| ==> c[i].time <= c[j].time)
    && (forall i :: 0 <= i < |c| ==> now - window <= c[i].time <= now)
  }

  lemma {:induction false} UnexpiredTimely(c: seq<Change>, window: int, before: int, now: int)
    requires Timely(c, window, before) && before <= now
    ensures Timely(Unexpired(c, now, window), window, now)
  {
    if Expired(c, now, window) {
      UnexpiredTimely(c[1..], window, before, now);
    }
  }

  lemma {:induction false} MatchTimely(c: seq<Change>, q: nat, window: int, now: int)
    requires Timely(c, window, now)
    ensures Timely(Matched(c, q).0, window, now)
    decreases c
  {
    if q == 0 || c == [] || q < c[0].quantity {
    } else {
      MatchTimely(c[1..], q - c[0].quantity, window, now);
    }
  }

  /** When time does not go back, a change is only ever matched within the window: after an
      event at `e.time` everything still pending is at most `window` old. */
  lemma StepTimely(r: Run, favorable: bool, window: int, order: nat, e: Event, before: int)
    requires r.filled <= order && 0 <= window && before <= e.time
    requires Timely(r.queue.reductions, window, before) && Timely(r.queue.credits, window, before)
    ensures var a := Advanced(r.queue, favorable, window, e.time);
      Timely(a.reductions, window, e.time) && Timely(a.credits, window, e.time)
    ensures var n := Observe(r, favorable, window, order, e);
      n.Some? ==> Timely(n.value.queue.reductions, window, e.time) && Timely(n.value.queue.credits, window, e.time)
  {
    hide Matched, Unexpired, Drained, Total;
    UnexpiredTimely(r.queue.reductions, window, before, e.time);
    UnexpiredTimely(r.queue.credits, window, before, e.time);
    var a := Advanced(r.queue, favorable, window, e.time);
    match e
    case Clock(_) =>
    case Displayed(_, displayed) => MatchTimely(a.credits, Max(0, r.queue.displayed - displayed), window, e.time);
    case Traded(_, quantity) => MatchTimely(a.reductions, quantity, window, e.time);
  }

  // ------------------------------------------------------------------------
  // Trades only: the exact fill
  // ------------------------------------------------------------------------

  /** Priority falls and fills grow by trades alone. */
  predicate TradesOnly(r: Run, initial: nat, order: nat) {
    && r.queue.ahead == Max(0, initial - r.traded)
    && r.filled == Min(order, Max(0, r.traded - initial))
  }

  lemma StepTradesOnly(r: Run, window: int, initial: nat, order: nat, e: Event)
    requires r.filled <= order && TradesOnly(r, initial, order)
    ensures var n := Observe(r, false, window, order, e); n.Some? ==> n.value.filled <= order && TradesOnly(n.value, initial, order)
  {
    hide Matched, Unexpired, Drained, Total;
  }

  lemma {:induction false} RunTradesOnly(r: Run, window: int, initial: nat, order: nat, events: seq<Event>)
    requires r.filled <= order && TradesOnly(r, initial, order)
    ensures var n := Play(r, false, window, order, events); n.Some? ==> TradesOnly(n.value, initial, order)
    decreases events
  {
    hide TradesOnly, Observe;
    if events != [] {
      StepTradesOnly(r, window, initial, order, events[0]);
      var next := Observe(r, false, window, order, events[0]);
      if next.Some? {
        RunTradesOnly(next.value, window, initial, order, events[1..]);
      }
    }
  }

  /** In the trades-only scenario the order is filled with exactly what trades beyond the
      initially displayed quantity, whatever the displayed depth does. */
  lemma TradesOnlyFill(window: int, displayed: nat, order: nat, events: seq<Event>)
    ensures var n := Play(Start(displayed), false, window, order, events);
      n.Some? ==> n.value.filled == Min(order, Max(0, n.value.traded - displayed))
  {
    RunTradesOnly(Start(displayed), window, displayed, order, events);
  }

  // ------------------------------------------------------------------------
  // Favorable against trades only
  // ------------------------------------------------------------------------

  /** Both scenarios reconcile alike; the favorable one has no more ahead of the order and
      has filled no less, and its lead is no more than the reductions that have expired. */
  predicate Dominates(f: Run, t: Run, initial: nat) {
    && f.queue.(ahead := 0) == t.queue.(ahead := 0)
    && f.queue.ahead <= t.queue.ahead && f.filled >= t.filled
    && f.traded == t.traded && f.expiredReductions == t.expiredReductions
    && f.queue.ahead >= initial - f.traded - f.expiredReductions
    && f.filled <= Max(0, f.traded + f.expiredReductions - initial) && f.filled <= f.traded
  }

  lemma StepDominates(f: Run, t: Run, window: int, initial: nat, order: nat, e: Event)
    requires f.filled <= order && t.filled <= order && Dominates(f, t, initial)
    ensures var f', t' := Observe(f, true, window, order, e), Observe(t, false, window, order, e);
      && (f'.Some? <==> t'.Some?)
      && (f'.Some? ==> f'.value.filled <= order && t'.value.filled <= order && Dominates(f'.value, t'.value, initial))
  {
    hide Matched, Unexpired, Drained, Total;
    DrainBounds(f.queue.ahead, t.queue.ahead, f.queue.reductions, e.time, window);
    ExpiryShrinks(f.queue.reductions, e.time, window);
  }

  lemma {:induction false} RunDominates(f: Run, t: Run, window: int, initial: nat, order: nat, events: seq<Event>)
    requires f.filled <= order && t.filled <= order && Dominates(f, t, initial)
    ensures var f', t' := Play(f, true, window, order, events), Play(t, false, window, order, events);
      (f'.Some? <==> t'.Some?) && (f'.Some? ==> Dominates(f'.value, t'.value, initial))
    decreases events
  {
    hide Dominates, Observe;
    if events != [] {
      StepDominates(f, t, window, initial, order, events[0]);
      var f', t' := Observe(f, true, window, order, events[0]), Observe(t, false, window, order, events[0]);
      if f'.Some? {
        RunDominates(f'.value, t'.value, window, initial, order, events[1..]);
      }
    }
  }

  /** On any event trace the favorable scenario fills at least as much as trades only, and at
      most as much more as the reductions that expired without a trade, and never more than
      was traded. */
  lemma FavorableBracketsTradesOnly(window: int, displayed: nat, order: nat, events: seq<Event>)
    ensures var f, t := Play(Start(displayed), true, window, order, events), Play(Start(displayed), false, window, order, events);
      && (f.Some? <==> t.Some?)
      && (f.Some? ==>
            && t.value.queue.ahead >= f.value.queue.ahead
            && t.value.filled <= f.value.filled
            && f.value.filled <= Min(order, Max(0, f.value.traded + f.value.expiredReductions - displayed))
            && f.value.filled <= f.value.traded)
  {
    RunDominates(Start(displayed), Start(displayed), window, displayed, order, events);
    RunFillBound(Start(displayed), true, window, order, events);
  }

  /** Without trades the favorable queue has advanced by exactly the reductions that have expired. */
  lemma FavorableAhead(window: int, displayed: nat, order: nat, events: seq<Event>)
    requires forall i :: 0 <= i < |events| ==> !events[i].Traded?
    ensures var n := Play(Start(displayed), true, window, order, events);
      n.Some? ==> n.value.queue.ahead == Max(0, displayed - n.value.expiredReductions) && n.value.filled == 0
  {
    RunAhead(Start(displayed), window, displayed, order, events);
  }

  lemma {:induction false} RunAhead(r: Run, window: int, displayed: nat, order: nat, events: seq<Event>)
    requires r.filled == 0 && r.queue.ahead == Max(0, displayed - r.expiredReductions)
    requires forall i :: 0 <= i < |events| ==> !events[i].Traded?
    ensures var n := Play(r, true, window, order, events);
      n.Some? ==> n.value.queue.ahead == Max(0, displayed - n.value.expiredReductions) && n.value.filled == 0
    decreases events
  {
    if events != [] {
      hide Unexpired, Drained, Matched;
      ExpiryShrinks(r.queue.reductions, events[0].time, window);
      DrainedByExpired(r.queue.ahead, r.queue.reductions, events[0].time, window);
      var next := Observe(r, true, window, order, events[0]);
      if next.Some? {
        RunAhead(next.value, window, displayed, order, events[1..]);
      }
    }
  }

  lemma {:induction false} DrainedByExpired(ahead: nat, c: seq<Change>, time: int, window: int)
    ensures Drained(ahead, c, time, window) == Max(0, ahead - (Total(c) - Total(Unexpired(c, time, window))))
    decreases c
  {
    if Expired(c, time, window) {
      DrainedByExpired(Max(0, ahead - c[0].quantity), c[1..], time, window);
      ExpiryShrinks(c[1..], time, window);
    }
  }

  // ------------------------------------------------------------------------
  // One step in plain terms
  // ------------------------------------------------------------------------

  /** What a step drops are the oldest changes, those beyond the window; in the favorable scenario
      their reductions come off the priority ahead. */
  lemma AdvanceSpelledOut(s: Queue, favorable: bool, window: int, time: int) returns (i: nat, j: nat)
    ensures i <= |s.reductions| && j <= |s.credits|
    ensures var a := Advanced(s, favorable, window, time);
      && a.reductions == s.reductions[i..] && a.credits == s.credits[j..] && a.displayed == s.displayed
      && (forall k :: 0 <= k < i ==> time - s.reductions[k].time > window) && (i < |s.reductions| ==> time - s.reductions[i].time <= window)
      && (forall k :: 0 <= k < j ==> time - s.credits[k].time > window) && (j < |s.credits| ==> time - s.credits[j].time <= window)
      && a.ahead == (if favorable then Max(0, s.ahead - Total(s.reductions[..i])) else s.ahead)
  {
    i := ExpiredPrefix(s.reductions, time, window);
    j := ExpiredPrefix(s.credits, time, window);
    DrainedByExpired(s.ahead, s.reductions, time, window);
    TotalSplit(s.reductions, i);
    hide Unexpired, Drained, Total;
  }

  lemma {:induction false} ExpiredPrefix(c: seq<Change>, time: int, window: int) returns (i: nat)
    ensures i <= |c| && Unexpired(c, time, window) == c[i..]
    ensures (forall k :: 0 <= k < i ==> time - c[k].time > window) && (i < |c| ==> time - c[i].time <= window)
    decreases c
  {
    i := 0;
    if Expired(c, time, window) {
      var j := ExpiredPrefix(c[1..], time, window);
      i := j + 1;
      assert forall k :: 0 < k < i ==> c[k] == c[1..][k - 1];
    }
  }

  lemma {:induction false} TotalSplit(c: seq<Change>, i: nat)
    requires i <= |c|
    ensures Total(c[..i]) + Total(c[i..]) == Total(c)
    decreases c
  {
    if i > 0 {
      TotalSplit(c[1..], i - 1);
      assert c[..i][1..] == c[1..][..i - 1];
    }
  }

  /** A lower display uses up credits first and what they do not explain is pending; a trade uses up
      reductions first, serves the priority ahead, and what it does not explain is a credit. Both
      fail exactly when something is left over and 1,024 changes are already pending. */
  lemma StepSpelledOut(s: Queue, favorable: bool, window: int, time: int, q: nat)
    ensures var a := Advanced(s, favorable, window, time);
      && (var fall := Max(0, s.displayed - q); var left := fall - Min(fall, Total(a.credits)); var n := AfterDepth(s, favorable, window, time, q);
          && (n.None? <==> left > 0 && |a.reductions| >= 1024)
          && (n.Some? ==>
                && n.value.ahead == a.ahead && n.value.displayed == q && Total(n.value.credits) == Total(a.credits) - (fall - left)
                && n.value.reductions == a.reductions + (if left > 0 then [Change(time, left)] else [])))
      && (var left := q - Min(q, Total(a.reductions)); var n := AfterTrade(s, favorable, window, time, q);
          && (n.None? <==> left > 0 && |a.credits| >= 1024)
          && (n.Some? ==>
                && n.value.ahead == a.ahead - Min(a.ahead, q) && n.value.displayed == a.displayed
                && Total(n.value.reductions) == Total(a.reductions) - (q - left)
                && n.value.credits == a.credits + (if left > 0 then [Change(time, left)] else []))
          && TradeExcess(s, favorable, window, time, q) == q - Min(a.ahead, q))
  {
    var a := Advanced(s, favorable, window, time);
    MatchTotals(a.credits, Max(0, s.displayed - q));
    MatchTotals(a.reductions, q);
    hide Advanced, Matched, Total;
  }

  lemma {:induction false} MatchTotals(c: seq<Change>, q: nat)
    ensures Matched(c, q).1 == q - Min(q, Total(c)) && Total(Matched(c, q).0) == Total(c) - Min(q, Total(c))
    decreases c
  {
    if q != 0 && c != [] {
      if q < c[0].quantity {
        assert ([c[0].(quantity := c[0].quantity - q)] + c[1..])[1..] == c[1..];
      } else {
        MatchTotals(c[1..], q - c[0].quantity);
      }
    }
  }

  lemma {:induction false} RunFillBound(r: Run, favorable: bool, window: int, order: nat, events: seq<Event>)
    requires r.filled <= order
    ensures var n := Play(r, favorable, window, order, events); n.Some? ==> n.value.filled <= order
    decreases events
  {
    if events != [] {
      var next := Observe(r, favorable, window, order, events[0]);
      if next.Some? {
        RunFillBound(next.value, favorable, window, order, events[1..]);
      }
    }
  }
}
