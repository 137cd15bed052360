/** The capture ring (src/session/async_capture.cpp): one producer and one worker thread over a
    bounded ring with an epoch for waking up. Every atomic load, store and read-modify-write
    is one step, in one sequentially consistent order; a run is any interleaving. */
module AsyncCapture {
  import opened FixedPoint

  datatype AppendResult = Queued | Closed | CapacityExceeded | WriterFailed

  /** A record, with the capacities its two strings keep allocated. */
  datatype Record = Record(content: int, channel: nat, payload: nat)

  /** `recordSize` is the size of the record object itself. */
  datatype Limits = Limits(records: nat, retainedBytes: nat, recordSize: nat)

  /** What creation accepts. */
  predicate ValidLimits(lim: Limits) {
    && 1 <= lim.records <= 65_536 && 2 <= lim.recordSize
    && lim.recordSize + 32 <= lim.retainedBytes <= 256 * 1024 * 1024
  }

  datatype Then = ToIdle | ToJoin

  /** Where the producer is inside append, finish or the destructor. */
  datatype Producer =
    | Idle
    | LoadConsumed(record: Record)
    | CheckRoom(record: Record, consumed: nat)
    | WriteSlot(record: Record)
    | Publish
    | Fail(reason: AppendResult)
    | StoreClosing
    | Signal(andThen: Then)
    | Notify(andThen: Then)
    | Join
    | Destroyed

  /** Where the worker is inside its loop. */
  datatype Worker =
    | LoadEpoch
    | LoadClosing
    | LoadFailure
    | LoadHead
    | CompareEpoch
    | Blocked(notified: bool)
    | Append
    | StoreConsumed
    | StoreTail
    | StoreWritten
    | RecordFailure
    | Finalize
    | Done

  datatype State = State(
    // shared
    slots: seq<Option<Record>>, head: nat, tail: nat, epoch: nat, consumedBytes: nat, writtenRecords: nat,
    failure: AppendResult, closing: bool,
    // the producer's own
    producer: Producer, acceptedBytes: nat, finished: bool, destroying: bool,
    // the worker's own
    worker: Worker, epochSeen: nat, closingSeen: bool,
    // history: records accepted and written, slots published and released, manifest
    accepted: seq<Record>, written: seq<Record>, published: nat, released: nat, manifest: bool)

  function Init(lim: Limits): State {
    State(seq(lim.records + 1, _ => None), 0, 0, 0, 0, 0, Queued, false, Idle, 0, false, false,
          LoadEpoch, 0, false, [], [], 0, 0, false)
  }

  function NextIndex(lim: Limits, index: nat): nat {
    if index + 1 == lim.records + 1 then 0 else index + 1
  }

  function Charge(lim: Limits, r: Record): nat {
    r.channel + r.payload + lim.recordSize
  }

  /** compare_exchange from Queued: only the first reason is recorded. */
  function Recorded(failure: AppendResult, reason: AppendResult): AppendResult {
    if failure == Queued then reason else failure
  }

  // ------------------------------------------------------------------------
  // Steps
  // ------------------------------------------------------------------------

  datatype Outcome = Succeeds | Errors | Throws

  datatype Action =
    | CallAppend(record: Record)
    | CallFinish
    | CallDestroy
    | ProducerStep
    | WorkerStep(outcome: Outcome)

  predicate HasRoom(lim: Limits, s: State, r: Record, consumed: nat) {
    var pending := s.acceptedBytes - consumed;
    && NextIndex(lim, s.head) != s.tail
    && r.channel <= lim.retainedBytes && r.payload <= lim.retainedBytes - r.channel
    && lim.recordSize <= lim.retainedBytes - r.channel - r.payload
    && Charge(lim, r) <= lim.retainedBytes - pending
    && s.acceptedBytes <= UINT64_MAX - lim.retainedBytes
  }

  function StepProducer(lim: Limits, s: State): Option<State>
    requires Indexed(lim, s)
  {
    match s.producer
    case Idle => None
    case LoadConsumed(r) => Some(s.(producer := CheckRoom(r, s.consumedBytes)))
    case CheckRoom(r, consumed) =>
      Some(s.(producer := if HasRoom(lim, s, r, consumed) then WriteSlot(r) else Fail(CapacityExceeded)))
    case WriteSlot(r) =>
      Some(s.(producer := Publish, slots := s.slots[s.head := Some(r)],
              acceptedBytes := s.acceptedBytes + Charge(lim, r), accepted := s.accepted + [r]))
    case Publish => Some(s.(producer := Signal(ToIdle), head := NextIndex(lim, s.head), published := s.published + 1))
    case Fail(reason) =>
      Some(s.(producer := if s.destroying then StoreClosing else Signal(ToIdle), failure := Recorded(s.failure, reason)))
    case StoreClosing => Some(s.(producer := Signal(ToJoin), closing := true))
    case Signal(t) => Some(s.(producer := Notify(t), epoch := s.epoch + 1))
    case Notify(t) =>
      Some(s.(producer := if t == ToIdle then Idle else Join,
              worker := if s.worker.Blocked? then Blocked(true) else s.worker))
    case Join =>
      if s.worker != Done then None
      else Some(s.(producer := if s.destroying then Destroyed else Idle, finished := true))
    case Destroyed => None
  }

  function StepWorker(lim: Limits, s: State, outcome: Outcome): Option<State>
    requires Indexed(lim, s)
  {
    match s.worker
    case LoadEpoch => Some(s.(worker := LoadClosing, epochSeen := s.epoch))
    case LoadClosing => Some(s.(worker := LoadFailure, closingSeen := s.closing))
    case LoadFailure => Some(s.(worker := if s.failure != Queued then Done else LoadHead))
    case LoadHead =>
      Some(s.(worker := if s.tail != s.head then Append else if s.closingSeen then Finalize else CompareEpoch))
    case CompareEpoch => Some(s.(worker := if s.epoch == s.epochSeen then Blocked(false) else LoadEpoch))
    case Blocked(notified) => if notified then Some(s.(worker := CompareEpoch)) else None
    case Append =>
      if outcome != Succeeds || s.slots[s.tail].None? then Some(s.(worker := RecordFailure))
      else Some(s.(worker := StoreConsumed, written := s.written + [s.slots[s.tail].value]))
    case StoreConsumed =>
      Some(s.(worker := StoreTail,
              consumedBytes := s.consumedBytes + (if s.slots[s.tail].Some? then Charge(lim, s.slots[s.tail].value) else 0)))
    case StoreTail =>
      Some(s.(worker := StoreWritten, slots := s.slots[s.tail := None], tail := NextIndex(lim, s.tail), released := s.released + 1))
    case StoreWritten => Some(s.(worker := LoadEpoch, writtenRecords := s.writtenRecords + 1))
    case RecordFailure => Some(s.(worker := Done, failure := Recorded(s.failure, WriterFailed)))
    case Finalize => Some(if outcome == Succeeds then s.(worker := Done, manifest := true) else s.(worker := RecordFailure))
    case Done => None
  }

  /** A call on the writer, by its one owner. */
  function StepCall(s: State, a: Action): Option<State> {
    if s.producer != Idle then None
    else match a
      case CallAppend(r) => if s.finished || s.failure != Queued then Some(s) else Some(s.(producer := LoadConsumed(r)))
      case CallFinish => if s.finished then Some(s) else Some(s.(producer := StoreClosing))
      case CallDestroy =>
        if s.finished then Some(s.(producer := Destroyed)) else Some(s.(producer := Fail(Closed), destroying := true))
      case _ => None
  }

  /** The slot vector is allocated, and both indices are in it. */
  predicate Indexed(lim: Limits, s: State) {
    |s.slots| == lim.records + 1 && s.head < |s.slots| && s.tail < |s.slots|
  }

  /** One step of the system; nothing when the action is not enabled. */
  function Step(lim: Limits, s: State, a: Action): Option<State>
    requires Indexed(lim, s)
  {
    match a
    case ProducerStep => StepProducer(lim, s)
    case WorkerStep(outcome) => StepWorker(lim, s, outcome)
    case _ => StepCall(s, a)
  }

  // ------------------------------------------------------------------------
  // The ring
  // ------------------------------------------------------------------------

  /** The slot of the k-th record. */
  function Slot(lim: Limits, k: nat): nat {
    k % (lim.records + 1)
  }

  lemma SlotInRing(lim: Limits, k: nat)
    ensures Slot(lim, k) < lim.records + 1
  {
  }

  lemma SlotNext(lim: Limits, k: nat)
    ensures NextIndex(lim, Slot(lim, k)) == Slot(lim, k + 1)
  {
    var n, q, r := lim.records + 1, k / (lim.records + 1), k % (lim.records + 1);
    assert k == q * n + r;
    Distribute(q, 1, n);
    if r + 1 == n {
      SlotUnique(k + 1, n, q + 1, 0);
    } else {
      SlotUnique(k + 1, n, q, r + 1);
    }
  }

  lemma SlotUnique(k: int, n: int, q: int, r: int)
    requires 0 <= r < n && k == q * n + r
    ensures k % n == r
  {
    ModDropsMultiples(r, n, q);
  }

  lemma SlotWraps(lim: Limits, k: nat)
    ensures Slot(lim, k + lim.records + 1) == Slot(lim, k)
  {
    ModDropsMultiples(k, lim.records + 1, 1);
  }

  /** Records less than a ring apart have different slots. */
  lemma SlotDistinct(lim: Limits, j: nat, k: nat)
    requires j < k <= j + lim.records
    ensures Slot(lim, j) != Slot(lim, k)
  {
    var n := lim.records + 1;
    if j % n == k % n {
      var a, b := j / n, k / n;
      assert j == a * n + j % n && k == b * n + k % n;
      assert (b - a) * n == b * n - a * n == k - j;
      if b - a <= 0 {
        MulMonotone(b - a, 0, n);
      } else {
        MulMonotone(1, b - a, n);
      }
    }
  }

  function Bytes(lim: Limits, rs: seq<Record>): nat {
    if rs == [] then 0 else Bytes(lim, rs[..|rs| - 1]) + Charge(lim, rs[|rs| - 1])
  }

  lemma BytesAppend(lim: Limits, rs: seq<Record>, r: Record)
    ensures Bytes(lim, rs + [r]) == Bytes(lim, rs) + Charge(lim, r)
  {
    assert (rs + [r])[..|rs|] == rs;
  }

  lemma {:induction false} BytesPrefix(lim: Limits, rs: seq<Record>, k: nat)
    requires k <= |rs|
    ensures Bytes(lim, rs[..k]) <= Bytes(lim, rs)
    ensures |rs| * lim.recordSize <= Bytes(lim, rs)
    decreases |rs|
  {
    if k < |rs| {
      BytesPrefix(lim, rs[..|rs| - 1], k);
      assert rs[..|rs| - 1][..k] == rs[..k];
      Distribute(|rs| - 1, 1, lim.recordSize);
    } else {
      assert rs[..k] == rs;
      if rs != [] {
        BytesPrefix(lim, rs[..|rs| - 1], |rs| - 1);
        Distribute(|rs| - 1, 1, lim.recordSize);
      }
    }
  }

  // ------------------------------------------------------------------------
  // Invariants
  // ------------------------------------------------------------------------

  /** The record at the tail has been written but its slot not yet released. */
  predicate HoldsWritten(w: Worker) {
    w == StoreConsumed || w == StoreTail
  }

  /** Slots hold exactly the accepted records that have not been released. */
  ghost predicate Holds(lim: Limits, slots: seq<Option<Record>>, accepted: seq<Record>, released: nat) {
    && |slots| == lim.records + 1
    && forall k :: released <= k < |accepted| && Slot(lim, k) < |slots| ==> slots[Slot(lim, k)] == Some(accepted[k])
  }

  ghost predicate RingInv(lim: Limits, s: State) {
    && Indexed(lim, s)
    && s.head == Slot(lim, s.published) && s.tail == Slot(lim, s.released)
    && s.released <= s.published <= s.released + lim.records
    && |s.accepted| == s.published + (if s.producer == Publish then 1 else 0)
    && (s.producer.WriteSlot? || s.producer == Publish ==> s.published < s.released + lim.records)
    && Holds(lim, s.slots, s.accepted, s.released)
    && (s.worker == Append || HoldsWritten(s.worker) ==> s.released < s.published)
    && s.written == s.accepted[..s.released + (if HoldsWritten(s.worker) then 1 else 0)]
  }

  /** A free slot takes the next record without touching any held one. */
  lemma HoldsAfterWrite(lim: Limits, slots: seq<Option<Record>>, accepted: seq<Record>, released: nat, r: Record)
    requires Holds(lim, slots, accepted, released) && released <= |accepted| < released + lim.records
    ensures Slot(lim, |accepted|) < |slots|
    ensures Holds(lim, slots[Slot(lim, |accepted|) := Some(r)], accepted + [r], released)
  {
    SlotInRing(lim, |accepted|);
    forall k | released <= k < |accepted| ensures Slot(lim, k) != Slot(lim, |accepted|) {
      SlotDistinct(lim, k, |accepted|);
    }
    hide Slot;
  }

  lemma HoldsAfterRelease(lim: Limits, slots: seq<Option<Record>>, accepted: seq<Record>, released: nat)
    requires Holds(lim, slots, accepted, released) && released < |accepted| <= released + lim.records + 1
    ensures Slot(lim, released) < |slots|
    ensures slots[Slot(lim, released)] == Some(accepted[released])
    ensures Holds(lim, slots[Slot(lim, released) := None], accepted, released + 1)
  {
    SlotInRing(lim, released);
    forall k | released < k < |accepted| ensures Slot(lim, k) != Slot(lim, released) {
      SlotDistinct(lim, released, k);
    }
    hide Slot;
  }

  ghost predicate BytesInv(lim: Limits, s: State) {
    && s.released + (if s.worker == StoreTail then 1 else 0) <= |s.accepted|
    && s.acceptedBytes == Bytes(lim, s.accepted) <= UINT64_MAX
    && s.consumedBytes == Bytes(lim, s.accepted[..s.released + (if s.worker == StoreTail then 1 else 0)])
    && s.acceptedBytes - s.consumedBytes <= lim.retainedBytes
    && (s.producer.CheckRoom? ==> s.producer.consumed <= s.consumedBytes)
    && (s.producer.WriteSlot? ==>
          && s.acceptedBytes - s.consumedBytes + Charge(lim, s.producer.record) <= lim.retainedBytes
          && s.acceptedBytes + Charge(lim, s.producer.record) <= UINT64_MAX)
  }

  /** The producer is inside a call that is not the closing half of finish or destruction. */
  predicate Working(p: Producer) {
    p.LoadConsumed? || p.CheckRoom? || p.WriteSlot? || p == Publish || p.Fail? || p == StoreClosing
    || p == Signal(ToIdle) || p == Notify(ToIdle)
  }

  /** Which calls can be in progress, and when the capture is closing or finished. */
  predicate CallInv(s: State) {
    && (Working(s.producer) ==> !s.closing && !s.finished)
    && (s.producer == Signal(ToJoin) || s.producer == Notify(ToJoin) || s.producer == Join ==> s.closing && !s.finished)
    && (s.producer == Idle && !s.finished ==> !s.closing && !s.destroying)
    && (s.finished ==> s.closing && s.worker == Done && (s.producer == Idle || s.producer == Destroyed))
    && (s.producer == Destroyed ==> s.finished)
  }

  /** A destructor without finish has recorded a failure before it closes. */
  predicate AbortInv(s: State) {
    && (s.producer.Fail? ==> s.producer.reason == if s.destroying then Closed else CapacityExceeded)
    && (s.destroying ==> s.producer.Fail? || s.producer == StoreClosing || s.closing)
    && (s.destroying && !s.producer.Fail? ==> s.failure != Queued)
  }

  /** The worker finalizes only a closed, drained queue without a failure. */
  predicate FinalizeInv(s: State) {
    && (s.closingSeen ==> s.closing)
    && (s.closingSeen && (s.worker == LoadHead || s.worker == Finalize) ==> s.failure == Queued)
    && (s.worker == Finalize ==> s.closingSeen && s.released == s.published)
    && (s.manifest ==> s.worker == Done && s.failure == Queued && s.closing && s.released == s.published)
    && (s.worker == Done ==> s.manifest || s.failure != Queued)
  }

  /** The producer has changed something and has not moved the epoch for it yet. */
  predicate SignalDue(s: State) {
    s.producer.Signal? || (s.producer == StoreClosing && s.destroying)
  }

  /** The epoch that the worker waits on has moved, or is about to. */
  predicate WillWake(s: State) {
    s.epochSeen < s.epoch || SignalDue(s)
  }

  /** The worker cannot miss work: whatever it has not seen has moved the epoch, or will. */
  predicate WakeInv(s: State) {
    && s.epochSeen <= s.epoch
    && (s.closing && !s.closingSeen && (s.worker.LoadFailure? || s.worker.LoadHead? || Waiting(s.worker)) ==> WillWake(s))
    && (s.failure != Queued && (s.worker.LoadHead? || Waiting(s.worker)) ==> WillWake(s))
    && (s.released != s.published && Waiting(s.worker) ==> WillWake(s))
    && (Waiting(s.worker) ==> !s.closingSeen)
    && (s.worker == Blocked(false) && s.epochSeen < s.epoch ==> s.producer.Notify?)
  }

  /** About to wait, or waiting. */
  predicate Waiting(w: Worker) {
    w.CompareEpoch? || w.Blocked?
  }

  /** Inside append, where no failure has been signalled yet. */
  predicate BeforeSignal(p: Producer) {
    p.LoadConsumed? || p.CheckRoom? || p.WriteSlot? || p == Publish || p == Fail(CapacityExceeded)
  }

  predicate EpochInv(s: State) {
    var due := if s.producer == Publish || s.producer.Signal? then 1 else 0;
    var allowed := |s.accepted| + (if s.closing then 1 else 0);
    && s.epoch + due <= allowed + 1
    && (s.failure == Queued || BeforeSignal(s.producer) ==> s.epoch + due <= allowed)
  }

  ghost predicate Inv(lim: Limits, s: State) {
    RingInv(lim, s) && BytesInv(lim, s) && CallInv(s) && AbortInv(s) && FinalizeInv(s) && WakeInv(s) && EpochInv(s)
  }

  lemma InitInv(lim: Limits)
    requires ValidLimits(lim)
    ensures Inv(lim, Init(lim))
  {
    SlotInRing(lim, 0);
  }

  /** Equal indices mean an empty ring; a head just behind the tail means a full one. */
  lemma RingEmpty(lim: Limits, s: State)
    requires RingInv(lim, s)
    ensures s.head == s.tail <==> s.released == s.published
    ensures NextIndex(lim, s.head) == s.tail <==> s.published == s.released + lim.records
    ensures NextIndex(lim, s.head) == Slot(lim, s.published + 1) < |s.slots|
    ensures NextIndex(lim, s.tail) == Slot(lim, s.released + 1) < |s.slots|
  {
    hide Slot, NextIndex, Holds;
    SlotNext(lim, s.published);
    SlotNext(lim, s.released);
    SlotInRing(lim, s.published + 1);
    SlotInRing(lim, s.released + 1);
    if s.released < s.published {
      SlotDistinct(lim, s.released, s.published);
    }
    if s.published < s.released + lim.records {
      SlotDistinct(lim, s.released, s.published + 1);
    } else {
      SlotWraps(lim, s.released);
    }
  }

  /** What a worker step leaves alone. */
  lemma WorkerFrame(lim: Limits, s: State, outcome: Outcome)
    requires Indexed(lim, s) && StepWorker(lim, s, outcome).Some?
    ensures var t := StepWorker(lim, s, outcome).value;
      && s.worker != Done && t.producer == s.producer && t.closing == s.closing && t.finished == s.finished
      && t.destroying == s.destroying && t.accepted == s.accepted && t.acceptedBytes == s.acceptedBytes
      && t.published == s.published && t.head == s.head && t.epoch == s.epoch
      && (t.failure == s.failure || (s.worker == RecordFailure && t.worker == Done && t.failure == WriterFailed))
      && (s.failure != Queued ==> t.failure == s.failure)
  {
  }

  /** What a producer step leaves alone. */
  lemma ProducerFrame(lim: Limits, s: State)
    requires Indexed(lim, s) && StepProducer(lim, s).Some?
    ensures var t := StepProducer(lim, s).value;
      && t.released == s.released && t.tail == s.tail && t.written == s.written && t.consumedBytes == s.consumedBytes
  {
    hide HasRoom, NextIndex, Charge;
  }

  lemma ProducerSignals(lim: Limits, s: State)
    requires Indexed(lim, s) && StepProducer(lim, s).Some?
    ensures var t := StepProducer(lim, s).value;
      && (t.worker == s.worker || (s.producer.Notify? && s.worker.Blocked? && t.worker == Blocked(true)))
      && (s.failure != Queued ==> t.failure == s.failure)
      && (t.failure != s.failure ==> s.producer.Fail?)
  {
    hide HasRoom, NextIndex, Charge;
  }

  /** Writing a record does not touch what the worker waits on. */
  lemma WritingIsNotWaiting(lim: Limits, s: State, outcome: Outcome)
    requires Indexed(lim, s) && StepWorker(lim, s, outcome).Some? && Writing(s.worker)
    ensures var w := StepWorker(lim, s, outcome).value.worker; !w.LoadFailure? && !w.LoadHead? && !Waiting(w)
  {
    hide NextIndex, Charge;
    match s.worker
    case Append =>
    case StoreConsumed =>
    case StoreTail =>
    case StoreWritten =>
    case RecordFailure =>
    case Finalize =>
  }

  lemma WritingKeepsEpochSeen(lim: Limits, s: State, outcome: Outcome)
    requires Indexed(lim, s) && StepWorker(lim, s, outcome).Some? && Writing(s.worker)
    ensures StepWorker(lim, s, outcome).value.epochSeen == s.epochSeen
  {
    hide NextIndex, Charge;
  }

  predicate Writing(w: Worker) {
    w == Append || HoldsWritten(w) || w == StoreWritten || w == RecordFailure || w == Finalize || w == Done
  }

  lemma CallKeepsCalls(s: State, a: Action)
    requires CallInv(s)
    ensures StepCall(s, a).Some? ==> CallInv(StepCall(s, a).value)
  {
  }

  lemma CallKeepsAbort(s: State, a: Action)
    requires CallInv(s) && AbortInv(s)
    ensures StepCall(s, a).Some? ==> AbortInv(StepCall(s, a).value)
  {
  }

  lemma CallKeepsFinalize(s: State, a: Action)
    requires CallInv(s) && AbortInv(s) && FinalizeInv(s)
    ensures StepCall(s, a).Some? ==> FinalizeInv(StepCall(s, a).value)
  {
  }

  lemma CallKeepsWake(s: State, a: Action)
    requires CallInv(s) && AbortInv(s) && FinalizeInv(s) && WakeInv(s)
    ensures StepCall(s, a).Some? ==> WakeInv(StepCall(s, a).value)
  {
  }

  lemma CallKeepsEpoch(s: State, a: Action)
    requires CallInv(s) && AbortInv(s) && EpochInv(s)
    ensures StepCall(s, a).Some? ==> EpochInv(StepCall(s, a).value)
  {
  }

  lemma ProducerKeepsCalls(lim: Limits, s: State)
    requires Indexed(lim, s) && CallInv(s) && AbortInv(s)
    ensures StepProducer(lim, s).Some? ==> CallInv(StepProducer(lim, s).value)
  {
  }

  lemma ProducerKeepsAbort(lim: Limits, s: State)
    requires Indexed(lim, s) && CallInv(s) && AbortInv(s)
    ensures StepProducer(lim, s).Some? ==> AbortInv(StepProducer(lim, s).value)
  {
  }

  lemma ProducerKeepsFinalize(lim: Limits, s: State)
    requires Indexed(lim, s) && CallInv(s) && AbortInv(s) && FinalizeInv(s)
    ensures StepProducer(lim, s).Some? ==> FinalizeInv(StepProducer(lim, s).value)
  {
  }

  lemma ProducerKeepsWake(lim: Limits, s: State)
    requires Indexed(lim, s) && CallInv(s) && AbortInv(s) && FinalizeInv(s) && WakeInv(s)
    ensures StepProducer(lim, s).Some? ==> WakeInv(StepProducer(lim, s).value)
  {
  }

  lemma ProducerKeepsEpoch(lim: Limits, s: State)
    requires Indexed(lim, s) && CallInv(s) && AbortInv(s) && EpochInv(s)
    ensures StepProducer(lim, s).Some? ==> EpochInv(StepProducer(lim, s).value)
  {
  }

  lemma WorkerKeepsCalls(lim: Limits, s: State, outcome: Outcome)
    requires Indexed(lim, s) && CallInv(s)
    ensures StepWorker(lim, s, outcome).Some? ==> CallInv(StepWorker(lim, s, outcome).value)
  {
    if StepWorker(lim, s, outcome).Some? {
      WorkerFrame(lim, s, outcome);
      hide StepWorker;
    }
  }

  lemma WorkerKeepsAbort(lim: Limits, s: State, outcome: Outcome)
    requires Indexed(lim, s) && CallInv(s) && AbortInv(s)
    ensures StepWorker(lim, s, outcome).Some? ==> AbortInv(StepWorker(lim, s, outcome).value)
  {
    if StepWorker(lim, s, outcome).Some? {
      WorkerFrame(lim, s, outcome);
      hide StepWorker;
    }
  }

  lemma WorkerKeepsFinalize(lim: Limits, s: State, outcome: Outcome)
    requires Indexed(lim, s) && CallInv(s) && AbortInv(s) && FinalizeInv(s)
    requires s.head == s.tail <==> s.released == s.published
    ensures StepWorker(lim, s, outcome).Some? ==> FinalizeInv(StepWorker(lim, s, outcome).value)
  {
  }

  lemma WorkerKeepsWake(lim: Limits, s: State, outcome: Outcome)
    requires Indexed(lim, s) && CallInv(s) && AbortInv(s) && FinalizeInv(s) && WakeInv(s)
    requires s.head == s.tail <==> s.released == s.published
    ensures StepWorker(lim, s, outcome).Some? ==> WakeInv(StepWorker(lim, s, outcome).value)
  {
    if StepWorker(lim, s, outcome).Some? && Writing(s.worker) {
      WorkerFrame(lim, s, outcome);
      WritingIsNotWaiting(lim, s, outcome);
      WritingKeepsEpochSeen(lim, s, outcome);
      hide StepWorker;
    }
  }

  lemma WorkerKeepsEpoch(lim: Limits, s: State, outcome: Outcome)
    requires Indexed(lim, s) && CallInv(s) && AbortInv(s) && EpochInv(s)
    ensures StepWorker(lim, s, outcome).Some? ==> EpochInv(StepWorker(lim, s, outcome).value)
  {
    if StepWorker(lim, s, outcome).Some? {
      WorkerFrame(lim, s, outcome);
      hide StepWorker;
    }
  }

  lemma CallKeepsRing(lim: Limits, s: State, a: Action)
    requires RingInv(lim, s) && BytesInv(lim, s)
    ensures StepCall(s, a).Some? ==> RingInv(lim, StepCall(s, a).value) && BytesInv(lim, StepCall(s, a).value)
  {
    hide Holds, Slot, Bytes;
  }

  lemma ProducerKeepsRing(lim: Limits, s: State)
    requires RingInv(lim, s) && BytesInv(lim, s)
    ensures StepProducer(lim, s).Some? ==> RingInv(lim, StepProducer(lim, s).value)
  {
    hide HasRoom, Holds, Slot, NextIndex, BytesInv, Charge;
    RingEmpty(lim, s);
    if s.producer.WriteSlot? {
      HoldsAfterWrite(lim, s.slots, s.accepted, s.released, s.producer.record);
    } else if s.producer.CheckRoom? {
      RoomMeansFree(lim, s);
    }
  }

  lemma WorkerKeepsRing(lim: Limits, s: State, outcome: Outcome)
    requires RingInv(lim, s)
    ensures StepWorker(lim, s, outcome).Some? ==> RingInv(lim, StepWorker(lim, s, outcome).value)
  {
    hide Holds, Slot, NextIndex, Charge;
    RingEmpty(lim, s);
    if s.worker == StoreTail || s.worker == Append {
      HoldsAfterRelease(lim, s.slots, s.accepted, s.released);
      assert s.accepted[..s.released + 1] == s.accepted[..s.released] + [s.accepted[s.released]];
    }
    if StepWorker(lim, s, outcome).Some? {
      WorkerFrame(lim, s, outcome);
      WorkerReleases(lim, s, outcome);
      hide StepWorker;
    }
  }

  lemma RoomMeansFree(lim: Limits, s: State)
    requires s.producer.CheckRoom?
    ensures HasRoom(lim, s, s.producer.record, s.producer.consumed) ==>
      && NextIndex(lim, s.head) != s.tail
      && s.acceptedBytes - s.producer.consumed + Charge(lim, s.producer.record) <= lim.retainedBytes
      && s.acceptedBytes + lim.retainedBytes <= UINT64_MAX
      && Charge(lim, s.producer.record) <= lim.retainedBytes
  {
  }

  lemma ProducerKeepsBytes(lim: Limits, s: State)
    requires RingInv(lim, s) && BytesInv(lim, s) && StepProducer(lim, s).Some? && RingInv(lim, StepProducer(lim, s).value)
    ensures BytesInv(lim, StepProducer(lim, s).value)
  {
    hide HasRoom, Holds, Slot, NextIndex, Bytes, Charge;
    ProducerFrame(lim, s);
    ProducerSignals(lim, s);
    if s.producer.WriteSlot? {
      WriteKeepsBytes(lim, s);
    } else {
      ProducerCharges(lim, s);
      hide StepProducer;
    }
  }

  lemma ProducerCharges(lim: Limits, s: State)
    requires Indexed(lim, s) && StepProducer(lim, s).Some? && !s.producer.WriteSlot?
    ensures var t := StepProducer(lim, s).value;
      && t.accepted == s.accepted && t.acceptedBytes == s.acceptedBytes
      && (t.producer.CheckRoom? ==> t.producer.consumed == s.consumedBytes)
      && (t.producer.WriteSlot? ==>
            && s.producer.CheckRoom? && t.producer.record == s.producer.record
            && s.acceptedBytes - s.producer.consumed + Charge(lim, s.producer.record) <= lim.retainedBytes
            && s.acceptedBytes + Charge(lim, s.producer.record) <= UINT64_MAX)
  {
    hide HasRoom, Charge, NextIndex;
    if s.producer.CheckRoom? {
      RoomMeansFree(lim, s);
    }
  }

  lemma WriteKeepsBytes(lim: Limits, s: State)
    requires RingInv(lim, s) && BytesInv(lim, s) && s.producer.WriteSlot?
    ensures BytesInv(lim, StepProducer(lim, s).value)
  {
    hide Holds, Slot, Bytes, Charge;
    var r := s.producer.record;
    BytesAppend(lim, s.accepted, r);
    assert (s.accepted + [r])[..s.released] == s.accepted[..s.released];
    if s.worker == StoreTail {
      assert (s.accepted + [r])[..s.released + 1] == s.accepted[..s.released + 1];
    }
  }

  lemma WorkerKeepsBytes(lim: Limits, s: State, outcome: Outcome)
    requires RingInv(lim, s) && BytesInv(lim, s) && StepWorker(lim, s, outcome).Some? && RingInv(lim, StepWorker(lim, s, outcome).value)
    ensures BytesInv(lim, StepWorker(lim, s, outcome).value)
  {
    hide Holds, Slot, NextIndex, Bytes, Charge;
    WorkerFrame(lim, s, outcome);
    WorkerReleases(lim, s, outcome);
    if s.worker == StoreConsumed {
      HoldsAfterRelease(lim, s.slots, s.accepted, s.released);
      BytesAppend(lim, s.accepted[..s.released], s.accepted[s.released]);
      assert s.accepted[..s.released + 1] == s.accepted[..s.released] + [s.accepted[s.released]];
      BytesPrefix(lim, s.accepted, s.released + 1);
    }
    hide StepWorker;
  }

  /** Which worker steps write, consume and release. */
  lemma WorkerReleases(lim: Limits, s: State, outcome: Outcome)
    requires Indexed(lim, s) && StepWorker(lim, s, outcome).Some?
    ensures var t := StepWorker(lim, s, outcome).value;
      && (if s.worker == StoreTail
          then t == s.(worker := StoreWritten, slots := s.slots[s.tail := None], tail := NextIndex(lim, s.tail), released := s.released + 1)
          else t.slots == s.slots && t.tail == s.tail && t.released == s.released)
      && (t.worker == StoreTail <==> s.worker == StoreConsumed)
      && (t.worker == StoreConsumed ==> s.worker == Append && s.slots[s.tail].Some? && t.written == s.written + [s.slots[s.tail].value])
      && (t.worker != StoreConsumed ==> t.written == s.written)
      && (t.worker == Append ==> s.tail != s.head)
      && (s.worker != StoreConsumed ==> t.consumedBytes == s.consumedBytes)
      && (s.worker == StoreConsumed && s.slots[s.tail].Some? ==> t.consumedBytes == s.consumedBytes + Charge(lim, s.slots[s.tail].value))
  {
    WorkerMoves(lim, s, outcome);
    WorkerWrites(lim, s, outcome);
    hide StepWorker, NextIndex, Charge;
  }

  lemma WorkerMoves(lim: Limits, s: State, outcome: Outcome)
    requires Indexed(lim, s) && StepWorker(lim, s, outcome).Some?
    ensures var t := StepWorker(lim, s, outcome).value;
      && (if s.worker == StoreTail
          then t == s.(worker := StoreWritten, slots := s.slots[s.tail := None], tail := NextIndex(lim, s.tail), released := s.released + 1)
          else t.slots == s.slots && t.tail == s.tail && t.released == s.released)
      && (t.worker == Append ==> s.tail != s.head)
  {
    hide NextIndex, Charge;
  }

  lemma WorkerWrites(lim: Limits, s: State, outcome: Outcome)
    requires Indexed(lim, s) && StepWorker(lim, s, outcome).Some?
    ensures var t := StepWorker(lim, s, outcome).value;
      && (t.worker == StoreTail <==> s.worker == StoreConsumed)
      && (t.worker == StoreConsumed ==> s.worker == Append && s.slots[s.tail].Some? && t.written == s.written + [s.slots[s.tail].value])
      && (t.worker != StoreConsumed ==> t.written == s.written)
      && (s.worker != StoreConsumed ==> t.consumedBytes == s.consumedBytes)
      && (s.worker == StoreConsumed && s.slots[s.tail].Some? ==> t.consumedBytes == s.consumedBytes + Charge(lim, s.slots[s.tail].value))
  {
    hide NextIndex, Charge;
  }

  // ------------------------------------------------------------------------
  // Theorems over every run
  // ------------------------------------------------------------------------

  lemma StepKeepsInv(lim: Limits, s: State, a: Action)
    requires ValidLimits(lim) && Inv(lim, s)
    ensures Step(lim, s, a).Some? ==> Inv(lim, Step(lim, s, a).value)
  {
    hide RingInv, BytesInv, CallInv, AbortInv, FinalizeInv, WakeInv, EpochInv, StepProducer, StepWorker, StepCall, Indexed;
    InvParts(lim, s);
    match a
    case ProducerStep =>
      if StepProducer(lim, s).Some? {
        ProducerKeepsRing(lim, s);
        ProducerKeepsBytes(lim, s);
        ProducerKeepsCalls(lim, s);
        ProducerKeepsAbort(lim, s);
        ProducerKeepsFinalize(lim, s);
        ProducerKeepsWake(lim, s);
        ProducerKeepsEpoch(lim, s);
        InvWhole(lim, StepProducer(lim, s).value);
      }
    case WorkerStep(outcome) =>
      if StepWorker(lim, s, outcome).Some? {
        WorkerKeepsRing(lim, s, outcome);
        WorkerKeepsBytes(lim, s, outcome);
        WorkerKeepsCalls(lim, s, outcome);
        WorkerKeepsAbort(lim, s, outcome);
        WorkerKeepsFinalize(lim, s, outcome);
        WorkerKeepsWake(lim, s, outcome);
        WorkerKeepsEpoch(lim, s, outcome);
        InvWhole(lim, StepWorker(lim, s, outcome).value);
      }
    case _ =>
      if StepCall(s, a).Some? {
        CallKeepsRing(lim, s, a);
        CallKeepsCalls(s, a);
        CallKeepsAbort(s, a);
        CallKeepsFinalize(s, a);
        CallKeepsWake(s, a);
        CallKeepsEpoch(s, a);
        InvWhole(lim, StepCall(s, a).value);
      }
  }

  /** Every run from creation keeps the invariant. */
  function Run(lim: Limits, s: State, actions: seq<Action>): Option<State>
    decreases actions
  {
    if actions == [] then Some(s)
    else if !Indexed(lim, s) then None
    else
      var next := Step(lim, s, actions[0]);
      if next.None? then None else Run(lim, next.value, actions[1..])
  }

  lemma {:induction false} RunKeepsInv(lim: Limits, s: State, actions: seq<Action>)
    requires ValidLimits(lim) && Inv(lim, s)
    ensures Run(lim, s, actions).Some? ==> Inv(lim, Run(lim, s, actions).value)
    decreases actions
  {
    hide Inv, Step;
    InvIndexed(lim, s);
    if actions != [] && Step(lim, s, actions[0]).Some? {
      StepKeepsInv(lim, s, actions[0]);
      RunKeepsInv(lim, Step(lim, s, actions[0]).value, actions[1..]);
    }
  }

  lemma InvParts(lim: Limits, s: State)
    requires Inv(lim, s)
    ensures RingInv(lim, s) && BytesInv(lim, s) && CallInv(s) && AbortInv(s) && FinalizeInv(s) && WakeInv(s) && EpochInv(s)
    ensures Indexed(lim, s)
    ensures s.head == s.tail <==> s.released == s.published
  {
    RingEmpty(lim, s);
    hide Holds, Slot, BytesInv, CallInv, AbortInv, FinalizeInv, WakeInv, EpochInv;
  }

  lemma InvWhole(lim: Limits, s: State)
    requires RingInv(lim, s) && BytesInv(lim, s) && CallInv(s) && AbortInv(s) && FinalizeInv(s) && WakeInv(s) && EpochInv(s)
    ensures Inv(lim, s)
  {
    hide RingInv, BytesInv, CallInv, AbortInv, FinalizeInv, WakeInv, EpochInv;
  }

  lemma InvIndexed(lim: Limits, s: State)
    requires Inv(lim, s)
    ensures Indexed(lim, s)
  {
    hide Holds, Slot, BytesInv, CallInv, AbortInv, FinalizeInv, WakeInv, EpochInv;
  }

  /** The state after a run from creation, if every action was enabled. */
  function Reached(lim: Limits, actions: seq<Action>): Option<State> {
    Run(lim, Init(lim), actions)
  }

  lemma ReachedInv(lim: Limits, actions: seq<Action>)
    requires ValidLimits(lim)
    ensures Reached(lim, actions).Some? ==> Inv(lim, Reached(lim, actions).value)
  {
    hide Inv, Step;
    InitInv(lim);
    RunKeepsInv(lim, Init(lim), actions);
  }

  /** What is written is what was accepted, in order; and the worker comes to publish a manifest
      only for a closed capture whose accepted records are all written, with no failure and no
      abandoned destructor. */
  lemma WrittenIsPrefix(lim: Limits, actions: seq<Action>)
    requires ValidLimits(lim) && Reached(lim, actions).Some?
    ensures var s := Reached(lim, actions).value;
      && |s.written| <= |s.accepted| && s.written == s.accepted[..|s.written|]
      && (s.manifest || s.worker == Finalize ==> s.written == s.accepted && s.failure == Queued && s.closing && !s.destroying)
  {
    ReachedInv(lim, actions);
    ghost var s := Reached(lim, actions).value;
    hide Holds, Slot, Reached, BytesInv, WakeInv, EpochInv;
  }

  /** At most the configured number of slots and bytes are held; the slot that the producer is
      about to fill holds no accepted record; and the byte and epoch counters never wrap. */
  lemma CapacityHeld(lim: Limits, actions: seq<Action>)
    requires ValidLimits(lim) && Reached(lim, actions).Some?
    ensures var s := Reached(lim, actions).value;
      && s.released <= s.published <= s.released + lim.records
      && (s.producer.WriteSlot? ==> forall k :: s.released <= k < s.published ==> Slot(lim, k) != s.head)
      && 0 <= s.acceptedBytes - s.consumedBytes <= lim.retainedBytes
      && s.acceptedBytes == Bytes(lim, s.accepted) <= UINT64_MAX
      && s.epoch <= |s.accepted| + 2 < UINT64_MAX
  {
    ReachedInv(lim, actions);
    ghost var s := Reached(lim, actions).value;
    hide Reached, Holds, Slot, Bytes, CallInv, AbortInv, FinalizeInv, WakeInv;
    BytesPrefix(lim, s.accepted, s.released + (if s.worker == StoreTail then 1 else 0));
    MulMonotone(2, lim.recordSize, |s.accepted|);
    if s.producer.WriteSlot? {
      forall k | s.released <= k < s.published ensures Slot(lim, k) != s.head {
        SlotDistinct(lim, k, s.published);
      }
    }
  }

  /** An append is refused exactly when the ring holds as many records as it may, or with this one
      more bytes than it may retain as far as the producer has seen them consumed, or the byte
      counter is about to run out. Otherwise the record is the next that is accepted. */
  lemma AppendRefused(lim: Limits, actions: seq<Action>)
    requires ValidLimits(lim) && Reached(lim, actions).Some? && Reached(lim, actions).value.producer.CheckRoom?
    ensures var s := Reached(lim, actions).value;
      var r, pending := s.producer.record, Bytes(lim, s.accepted) - s.producer.consumed;
      && Indexed(lim, s) && StepProducer(lim, s).Some?
      && var full := s.published - s.released == lim.records
                     || r.channel + r.payload + lim.recordSize + pending > lim.retainedBytes
                     || s.acceptedBytes > 0xffff_ffff_ffff_ffff - lim.retainedBytes;
      StepProducer(lim, s).value == s.(producer := if full then Fail(CapacityExceeded) else WriteSlot(r))
  {
    ReachedInv(lim, actions);
    var s := Reached(lim, actions).value;
    InvParts(lim, s);
    RingEmpty(lim, s);
    RoomLeft(lim, s);
    hide Reached, RingInv, BytesInv, AbortInv, CallInv, FinalizeInv, EpochInv, WakeInv, NextIndex, Bytes, Holds, Slot;
  }

  lemma RoomLeft(lim: Limits, s: State)
    requires BytesInv(lim, s) && s.producer.CheckRoom?
    ensures s.producer.consumed <= s.consumedBytes <= s.acceptedBytes == Bytes(lim, s.accepted)
  {
    BytesPrefix(lim, s.accepted, s.released + (if s.worker == StoreTail then 1 else 0));
  }

  /** An append on an open capture without a failure checks its room against what is consumed at
      that moment; a record with room takes the next slot, its bytes are counted, and publishing it
      makes it the newest that the worker can see. */
  lemma AppendTaken(lim: Limits, actions: seq<Action>, r: Record)
    requires ValidLimits(lim) && Reached(lim, actions).Some?
    ensures var s := Reached(lim, actions).value; Indexed(lim, s) && TakesNext(lim, s, r)
  {
    ReachedInv(lim, actions);
    var s := Reached(lim, actions).value;
    InvParts(lim, s);
    HeadIs(lim, s);
    hide *;
    TakingSteps(lim, s, r);
  }

  predicate TakesNext(lim: Limits, s: State, r: Record)
    requires Indexed(lim, s)
  {
    && (s.producer == Idle && !s.finished && s.failure == Queued ==> StepCall(s, CallAppend(r)) == Some(s.(producer := LoadConsumed(r))))
    && (s.producer == Idle && (s.finished || s.failure != Queued) ==> StepCall(s, CallAppend(r)) == Some(s))
    && (s.producer == LoadConsumed(r) ==> StepProducer(lim, s) == Some(s.(producer := CheckRoom(r, s.consumedBytes))))
    && (s.producer == WriteSlot(r) ==>
          StepProducer(lim, s) == Some(s.(producer := Publish, slots := s.slots[s.published % (lim.records + 1) := Some(r)],
                                          acceptedBytes := s.acceptedBytes + r.channel + r.payload + lim.recordSize, accepted := s.accepted + [r])))
    && (s.producer == Publish ==>
          StepProducer(lim, s) == Some(s.(producer := Signal(ToIdle), head := (s.published + 1) % (lim.records + 1), published := s.published + 1)))
  }

  lemma TakingSteps(lim: Limits, s: State, r: Record)
    requires Indexed(lim, s) && s.head == s.published % (lim.records + 1) && NextIndex(lim, s.head) == (s.published + 1) % (lim.records + 1)
    ensures TakesNext(lim, s, r)
  {
    hide NextIndex, HasRoom;
  }

  lemma HeadIs(lim: Limits, s: State)
    requires RingInv(lim, s)
    ensures Indexed(lim, s) && s.head == s.published % (lim.records + 1) && NextIndex(lim, s.head) == (s.published + 1) % (lim.records + 1)
  {
    SlotNext(lim, s.published);
    hide NextIndex, Holds;
  }

  /** A new capture is open, without records, failure or signal. */
  lemma Beginning(lim: Limits)
    ensures Reached(lim, []) == Some(Init(lim))
    ensures var s := Init(lim);
      && |s.slots| == lim.records + 1 && (forall i :: 0 <= i < |s.slots| ==> s.slots[i] == None)
      && s.head == s.tail == s.published == s.released == s.epoch == s.consumedBytes == s.acceptedBytes == s.writtenRecords == 0
      && s.accepted == s.written == [] && s.failure == Queued && !s.closing && !s.finished && !s.destroying && !s.manifest
      && s.producer == Idle && s.worker == LoadEpoch && s.epochSeen == 0 && !s.closingSeen
  {
  }

  /** What the worker looks at, in this order: the epoch, whether the capture is closing, a failure,
      and the published records. It leaves on a failure, writes the oldest record that is not released,
      finalizes when there is none and it has seen the capture closing, and otherwise sleeps unless the
      epoch has moved on since it looked. */
  lemma WorkerLooks(lim: Limits, actions: seq<Action>, outcome: Outcome)
    requires ValidLimits(lim) && Reached(lim, actions).Some?
    ensures var s := Reached(lim, actions).value;
      && Indexed(lim, s)
      && (s.worker == LoadEpoch ==> StepWorker(lim, s, outcome) == Some(s.(worker := LoadClosing, epochSeen := s.epoch)))
      && (s.worker == LoadClosing ==> StepWorker(lim, s, outcome) == Some(s.(worker := LoadFailure, closingSeen := s.closing)))
      && (s.worker == LoadFailure ==> StepWorker(lim, s, outcome) == Some(s.(worker := if s.failure == Queued then LoadHead else Done)))
      && (s.worker == LoadHead ==>
            StepWorker(lim, s, outcome)
            == Some(s.(worker := if s.released < s.published then Append else if s.closingSeen then Finalize else CompareEpoch)))
      && (s.worker == CompareEpoch ==>
            StepWorker(lim, s, outcome) == Some(s.(worker := if s.epoch == s.epochSeen then Blocked(false) else LoadEpoch)))
      && (s.worker == Blocked(false) || s.worker == Done ==> StepWorker(lim, s, outcome) == None)
  {
    ReachedInv(lim, actions);
    var s := Reached(lim, actions).value;
    InvParts(lim, s);
    RingEmpty(lim, s);
    hide Reached, RingInv, BytesInv, AbortInv, CallInv, FinalizeInv, EpochInv, WakeInv, NextIndex, Bytes, Holds, Charge, Recorded;
  }

  /** How the worker writes: the oldest record that is not released is appended, its bytes are
      consumed, its slot is freed, and only then is it counted; a failed or throwing writer leaves a
      failure and no manifest. */
  lemma WorkerWritesOldest(lim: Limits, actions: seq<Action>, outcome: Outcome)
    requires ValidLimits(lim) && Reached(lim, actions).Some?
    ensures var s := Reached(lim, actions).value; Indexed(lim, s) && WritesOldest(lim, s, outcome)
  {
    ReachedInv(lim, actions);
    var s := Reached(lim, actions).value;
    InvParts(lim, s);
    OldestHeld(lim, s);
    hide *;
    WritingSteps(lim, s, outcome);
  }

  predicate WritesOldest(lim: Limits, s: State, outcome: Outcome)
    requires Indexed(lim, s)
  {
    && (s.worker == Append ==>
          && s.released < |s.accepted|
          && StepWorker(lim, s, outcome)
             == Some(if outcome == Succeeds then s.(worker := StoreConsumed, written := s.written + [s.accepted[s.released]]) else s.(worker := RecordFailure)))
    && (s.worker == StoreConsumed ==>
          && s.released < |s.accepted|
          && var r := s.accepted[s.released];
             StepWorker(lim, s, outcome) == Some(s.(worker := StoreTail, consumedBytes := s.consumedBytes + r.channel + r.payload + lim.recordSize)))
    && (s.worker == StoreTail ==>
          StepWorker(lim, s, outcome)
          == Some(s.(worker := StoreWritten, slots := s.slots[s.released % (lim.records + 1) := None], tail := (s.released + 1) % (lim.records + 1),
                     released := s.released + 1)))
    && (s.worker == StoreWritten ==> StepWorker(lim, s, outcome) == Some(s.(worker := LoadEpoch, writtenRecords := s.writtenRecords + 1)))
    && (s.worker == RecordFailure ==>
          StepWorker(lim, s, outcome) == Some(s.(worker := Done, failure := if s.failure == Queued then WriterFailed else s.failure)))
    && (s.worker == Finalize ==>
          StepWorker(lim, s, outcome) == Some(if outcome == Succeeds then s.(worker := Done, manifest := true) else s.(worker := RecordFailure)))
  }

  lemma WritingSteps(lim: Limits, s: State, outcome: Outcome)
    requires Indexed(lim, s) && s.tail == s.released % (lim.records + 1) && NextIndex(lim, s.tail) == (s.released + 1) % (lim.records + 1)
    requires s.worker == Append || HoldsWritten(s.worker) ==> s.released < |s.accepted| && s.slots[s.tail] == Some(s.accepted[s.released])
    ensures WritesOldest(lim, s, outcome)
  {
    hide NextIndex;
  }

  lemma OldestHeld(lim: Limits, s: State)
    requires RingInv(lim, s)
    ensures Indexed(lim, s) && s.tail == s.released % (lim.records + 1) && NextIndex(lim, s.tail) == (s.released + 1) % (lim.records + 1)
    ensures s.worker == Append || HoldsWritten(s.worker) ==> s.released < |s.accepted| && s.slots[s.tail] == Some(s.accepted[s.released])
  {
    SlotNext(lim, s.released);
    hide NextIndex;
  }

  /** Closing: finishing an open capture, or destroying it, which also records that it was closed
      unless there was a failure before, lets the worker know and waits until it is done. */
  lemma ClosingSpelledOut(lim: Limits, actions: seq<Action>)
    requires ValidLimits(lim) && Reached(lim, actions).Some?
    ensures var s := Reached(lim, actions).value;
      && Indexed(lim, s)
      && (s.producer == Idle ==>
            && StepCall(s, CallFinish) == Some(if s.finished then s else s.(producer := StoreClosing))
            && StepCall(s, CallDestroy) == Some(if s.finished then s.(producer := Destroyed) else s.(producer := Fail(Closed), destroying := true)))
      && (s.producer.Fail? ==>
            StepProducer(lim, s)
            == Some(s.(producer := if s.destroying then StoreClosing else Signal(ToIdle), failure := if s.failure == Queued then s.producer.reason else s.failure)))
      && (s.producer == StoreClosing ==> StepProducer(lim, s) == Some(s.(producer := Signal(ToJoin), closing := true)))
      && (s.producer.Signal? ==> StepProducer(lim, s) == Some(s.(producer := Notify(s.producer.andThen), epoch := s.epoch + 1)))
      && (s.producer.Notify? ==>
            StepProducer(lim, s)
            == Some(s.(producer := if s.producer.andThen == ToJoin then Join else Idle, worker := if s.worker == Blocked(false) then Blocked(true) else s.worker)))
      && (s.producer == Join ==>
            StepProducer(lim, s)
            == if s.worker == Done then Some(s.(producer := if s.destroying then Destroyed else Idle, finished := true)) else None)
  {
    ReachedInv(lim, actions);
    var s := Reached(lim, actions).value;
    InvParts(lim, s);
    RingEmpty(lim, s);
    hide Reached, RingInv, BytesInv, AbortInv, CallInv, FinalizeInv, EpochInv, WakeInv, NextIndex, Bytes, Holds, HasRoom;
  }

  /** A worker that waits, or is about to, cannot miss work: when there is a record to write,
      the capture is closing or has failed, the epoch has moved on or the producer still has
      its signal to give; and a worker asleep on a moved epoch is about to be notified. */
  lemma NoMissedWork(lim: Limits, actions: seq<Action>)
    requires ValidLimits(lim) && Reached(lim, actions).Some?
    ensures var s := Reached(lim, actions).value;
      Waiting(s.worker) && (s.head != s.tail || s.closing || s.failure != Queued) ==>
        && (s.epochSeen < s.epoch || SignalDue(s))
        && (s.worker == Blocked(false) ==> SignalDue(s) || s.producer.Notify?)
  {
    ReachedInv(lim, actions);
    InvParts(lim, Reached(lim, actions).value);
    hide Reached, RingInv, BytesInv, AbortInv, CallInv, FinalizeInv, EpochInv;
  }

  /** The first failure is never overwritten. */
  lemma FailureKept(lim: Limits, s: State, a: Action)
    requires Indexed(lim, s) && s.failure != Queued && Step(lim, s, a).Some?
    ensures Step(lim, s, a).value.failure == s.failure
  {
    match a
    case ProducerStep => ProducerSignals(lim, s);
      hide StepProducer;
    case WorkerStep(outcome) => WorkerFrame(lim, s, outcome);
      hide StepWorker;
    case _ =>
  }

  /** A run that records a failure at any point keeps it to its end and publishes no manifest. */
  lemma {:induction false} FailureIsFinal(lim: Limits, s: State, actions: seq<Action>)
    requires ValidLimits(lim) && Inv(lim, s) && s.failure != Queued && Run(lim, s, actions).Some?
    ensures Run(lim, s, actions).value.failure == s.failure && !Run(lim, s, actions).value.manifest
    decreases actions
  {
    hide Step, RingInv, BytesInv, CallInv, AbortInv, WakeInv, EpochInv;
    if actions != [] {
      FailureKept(lim, s, actions[0]);
      StepKeepsInv(lim, s, actions[0]);
      FailureIsFinal(lim, Step(lim, s, actions[0]).value, actions[1..]);
    }
  }

  // ------------------------------------------------------------------------
  // Joining
  // ------------------------------------------------------------------------

  /** How far the worker is from returning once the producer waits for it. */
  function Rank(s: State): int {
    20 * (s.published - s.released) + PositionRank(s)
  }

  function PositionRank(s: State): (r: nat)
    ensures r <= 15
  {
    match s.worker
    case Done => 0
    case RecordFailure => 1
    case Finalize => 2
    case StoreTail => 3
    case StoreConsumed => 4
    case Append => 5
    case LoadHead => if s.closingSeen then 6 else 14
    case LoadFailure => if s.closingSeen then 7 else 15
    case LoadClosing => 8
    case LoadEpoch => 9
    case StoreWritten => 10
    case CompareEpoch => 12
    case Blocked(_) => 13
  }

  /** While the producer joins, the worker is never stuck, and every step brings it closer. */
  lemma JoinProgress(lim: Limits, s: State, outcome: Outcome)
    requires Inv(lim, s) && s.producer == Join && s.worker != Done
    ensures Indexed(lim, s) && StepWorker(lim, s, outcome).Some?
    ensures 0 <= Rank(StepWorker(lim, s, outcome).value) < Rank(s) <= 20 * lim.records + 15
    ensures StepWorker(lim, s, outcome).value.producer == Join
  {
    hide RingInv, BytesInv, AbortInv, CallInv, FinalizeInv, EpochInv, WakeInv, StepWorker, Indexed, Rank;
    InvParts(lim, s);
    JoinIsAwake(s);
    RanksInRing(lim, s);
    if Writing(s.worker) {
      WritingProgress(lim, s, outcome);
    } else {
      LookingProgress(lim, s, outcome);
    }
    WorkerFrame(lim, s, outcome);
    StepKeepsRing(lim, s, outcome);
  }

  /** Writing records, or ending: a release weighs more than the positions that it goes back. */
  lemma WritingProgress(lim: Limits, s: State, outcome: Outcome)
    requires Indexed(lim, s) && Writing(s.worker) && s.worker != Done
    ensures StepWorker(lim, s, outcome).Some? && Rank(StepWorker(lim, s, outcome).value) < Rank(s)
  {
    hide NextIndex, Charge, PositionRank, Indexed;
    if s.worker != StoreTail {
      WritingMoves(lim, s, outcome);
    }
    WorkerReleases(lim, s, outcome);
    WorkerFrame(lim, s, outcome);
    hide StepWorker;
  }

  lemma WritingMoves(lim: Limits, s: State, outcome: Outcome)
    requires Indexed(lim, s) && Writing(s.worker) && s.worker != Done && s.worker != StoreTail
    ensures StepWorker(lim, s, outcome).Some? && PositionRank(StepWorker(lim, s, outcome).value) < PositionRank(s)
  {
    hide NextIndex, Charge;
  }

  /** Looking for a record, the closing or a failure. */
  lemma LookingProgress(lim: Limits, s: State, outcome: Outcome)
    requires Indexed(lim, s) && !Writing(s.worker) && s.closing && s.worker != Blocked(false)
    requires s.worker == CompareEpoch ==> s.epochSeen < s.epoch
    requires Waiting(s.worker) ==> !s.closingSeen
    ensures StepWorker(lim, s, outcome).Some? && Rank(StepWorker(lim, s, outcome).value) < Rank(s)
  {
    hide NextIndex, Charge;
  }

  lemma StepKeepsRing(lim: Limits, s: State, outcome: Outcome)
    requires RingInv(lim, s) && Indexed(lim, s) && StepWorker(lim, s, outcome).Some?
    ensures Rank(StepWorker(lim, s, outcome).value) >= 0
  {
    hide StepWorker, RingInv;
    WorkerKeepsRing(lim, s, outcome);
    RanksInRing(lim, StepWorker(lim, s, outcome).value);
  }

  lemma RanksInRing(lim: Limits, s: State)
    requires RingInv(lim, s)
    ensures 0 <= s.published - s.released <= lim.records && 0 <= Rank(s) <= 20 * lim.records + 15
    ensures s.worker == StoreTail ==> s.released < s.published
  {
    hide Holds, Slot;
  }

  lemma JoinIsAwake(s: State)
    requires CallInv(s) && FinalizeInv(s) && WakeInv(s) && s.producer == Join
    ensures s.closing && s.worker != Blocked(false) && (Waiting(s.worker) ==> !s.closingSeen)
    ensures s.worker == CompareEpoch ==> s.epochSeen < s.epoch
  {
  }

  /** The worker's steps alone, one outcome of its writer each, until it returns. */
  function WorkerRun(lim: Limits, s: State, outcomes: seq<Outcome>): State
    decreases outcomes
  {
    if outcomes == [] || s.worker == Done || !Indexed(lim, s) then s
    else
      var next := StepWorker(lim, s, outcomes[0]);
      if next.None? then s else WorkerRun(lim, next.value, outcomes[1..])
  }

  /** Joining ends, whatever the session's writer does: after that many worker steps it has
      returned. */
  lemma {:induction false} JoinCompletes(lim: Limits, s: State, outcomes: seq<Outcome>)
    requires ValidLimits(lim) && Inv(lim, s) && s.producer == Join && |outcomes| >= Rank(s)
    ensures var t := WorkerRun(lim, s, outcomes); t.worker == Done && t.producer == Join && Inv(lim, t)
    decreases outcomes
  {
    if s.worker != Done {
      JoinProgress(lim, s, if outcomes == [] then Succeeds else outcomes[0]);
      hide StepWorker, RingInv, BytesInv, AbortInv, CallInv, FinalizeInv, EpochInv, WakeInv, Rank, Indexed;
      StepKeepsInv(lim, s, WorkerStep(outcomes[0]));
      JoinCompletes(lim, StepWorker(lim, s, outcomes[0]).value, outcomes[1..]);
    }
  }

  /** With a writer that succeeds and no failure before closing, finish publishes the manifest of
      exactly the accepted records. */
  lemma {:induction false} CleanFinish(lim: Limits, s: State, outcomes: seq<Outcome>)
    requires ValidLimits(lim) && Inv(lim, s) && s.producer == Join && |outcomes| >= Rank(s)
    requires s.failure == Queued && s.worker != RecordFailure
    requires forall i :: 0 <= i < |outcomes| ==> outcomes[i] == Succeeds
    ensures var t := WorkerRun(lim, s, outcomes); t.manifest && t.written == t.accepted == s.accepted
    decreases outcomes
  {
    if s.worker != Done {
      JoinProgress(lim, s, if outcomes == [] then Succeeds else outcomes[0]);
      StaysClean(lim, s);
      WorkerFrame(lim, s, Succeeds);
      hide StepWorker, RingInv, BytesInv, AbortInv, CallInv, FinalizeInv, EpochInv, WakeInv, Rank, Indexed;
      StepKeepsInv(lim, s, WorkerStep(outcomes[0]));
      CleanFinish(lim, StepWorker(lim, s, outcomes[0]).value, outcomes[1..]);
    } else {
      DoneIsComplete(lim, s);
    }
  }

  lemma DoneIsComplete(lim: Limits, s: State)
    requires Inv(lim, s) && s.worker == Done && s.failure == Queued && s.producer == Join
    ensures s.manifest && s.written == s.accepted
  {
    hide Holds, Slot, BytesInv, AbortInv, CallInv, EpochInv, WakeInv;
  }

  lemma StaysClean(lim: Limits, s: State)
    requires Inv(lim, s) && s.failure == Queued && s.worker != RecordFailure && Indexed(lim, s)
    ensures StepWorker(lim, s, Succeeds).Some? ==>
      var t := StepWorker(lim, s, Succeeds).value; t.failure == Queued && t.worker != RecordFailure
  {
    if s.worker == Append {
      HoldsAfterRelease(lim, s.slots, s.accepted, s.released);
    }
    hide Holds, Slot, BytesInv, AbortInv, CallInv, EpochInv, WakeInv, NextIndex, Charge, FinalizeInv;
  }
}
