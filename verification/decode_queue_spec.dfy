/**
 The ordered parallel decode queue, as a state machine on values.

 Tasks are numbered in the order in which they were enqueued.  Where the queue keeps a linked
 list with three pointers, this machine keeps two positions: `base`, the first task still in
 the list, and `next`, the task `nextDecode` points at (|tasks| when it points nowhere).

 The queue hands control to its environment at one place only, the call of a task's `apply`.
 The machine therefore stops there (`applying` becomes `Calling`) and how the call ended is a
 later event, so anything the callback does to the queue before it returns is just another
 event in between.
 */
module DecodeQueueSpec {
  import opened Wrappers

  /** What enqueueing a task hands over: no decoder, one that returns a promise, or one that throws when called. */
  datatype Decoder = NoDecoder | Promising | Throwing(error: int)

  /** How a decode ended.  Decoded values and errors are opaque tokens. */
  datatype Outcome = Decoded(value: int) | Failed(error: int)

  datatype Task = Task(decoder: Decoder, bytes: nat, signal: bool, started: bool,
                       outcome: Option<Outcome>, ready: bool, cancelled: bool, released: bool)
  {
    predicate InFlight() { started && outcome.None? }
  }

  /** The call of `apply` in progress: not yet returned, or returned a promise that is still pending. */
  datatype Applying = Idle | Calling(task: nat) | Awaiting(task: nat)

  /** What became of a task once it reached the head of the list. */
  datatype Turn = Applied(task: nat, outcome: Option<Outcome>) | Skipped(task: nat) | FailedTurn(task: nat)

  datatype Limits = Limits(parallel: nat, frames: nat, bytes: nat)
  datatype Metrics = Metrics(frames: int, bytes: int, peakFrames: int, peakBytes: int, decodes: nat)

  datatype Queue = Queue(limits: Limits, tasks: seq<Task>, base: nat, next: nat, active: int, closed: bool,
                         applying: Applying, metrics: Metrics, drains: nat,
                         turns: seq<Turn>, errors: seq<int>)

  /** The error the queue reports itself when an admission limit is exceeded. */
  const BUFFER_LIMIT_ERROR := -1
  const MAX_PARALLEL_CHUNK_DECODES := 8

  predicate ValidLimits(l: Limits) {
    && 0 < l.parallel <= MAX_PARALLEL_CHUNK_DECODES
    && 0 < l.frames
    && 0 < l.bytes
  }

  function Initial(limits: Limits): Queue {
    Queue(limits, [], 0, 0, 0, false, Idle, Metrics(0, 0, 0, 0, 0), 0, [], [])
  }

  // ---------- the internal procedures ----------

  /** Sums a weight over the tasks. */
  function Sum(ts: seq<Task>, weight: Task -> int): int {
    if ts == [] then 0 else Sum(ts[..|ts| - 1], weight) + weight(ts[|ts| - 1])
  }

  function FrameWeight(t: Task): int { if t.decoder.NoDecoder? || t.released then 0 else 1 }

  function ByteWeight(t: Task): int { if t.decoder.NoDecoder? || t.released then 0 else t.bytes }

  function FlightWeight(t: Task): int { if t.InFlight() then 1 else 0 }

  function StartWeight(t: Task): int { if t.started then 1 else 0 }

  function RemoveHead(q: Queue): Queue {
    q.(base := q.base + 1, next := if q.next == q.base then q.base + 1 else q.next)
  }

  function Release(q: Queue, i: nat): Queue
    requires i < |q.tasks|
  {
    var t := q.tasks[i];
    if t.released then q
    else
      q.(tasks := q.tasks[i := t.(released := true)],
         metrics := q.metrics.(frames := q.metrics.frames - FrameWeight(t), bytes := q.metrics.bytes - ByteWeight(t)))
  }

  function FinishDrains(q: Queue): Queue {
    if q.base < |q.tasks| then q else q.(drains := 0)
  }

  /** Takes the head out of the list for good. */
  function DropHead(q: Queue): Queue
    requires q.base < |q.tasks|
  {
    var i := q.base;
    var t := q.tasks[i].(cancelled := true);
    Release(RemoveHead(q).(tasks := q.tasks[i := t]), i)
  }

  function RemoveAll(q: Queue): Queue
    decreases |q.tasks| - q.base
  {
    if q.base >= |q.tasks| then q else RemoveAll(DropHead(q))
  }

  function Clear(q: Queue): Queue {
    if q.closed then q else FinishDrains(RemoveAll(q.(closed := true)))
  }

  function Fail(q: Queue, error: int): Queue {
    if q.closed then q
    else
      var c := Clear(q);
      c.(errors := c.errors + [error])
  }

  /** A head that was cancelled leaves the list without being applied. */
  function SkipHead(q: Queue): Queue
    requires q.base < |q.tasks|
  {
    Release(RemoveHead(q), q.base).(turns := q.turns + [Skipped(q.base)])
  }

  /** The loop of applyReady: gives heads their turn until one is not ready, fails, or must be applied. */
  function Settle(q: Queue): Queue
    decreases |q.tasks| - q.base
  {
    if q.base >= |q.tasks| || !q.tasks[q.base].ready then FinishDrains(q)
    else
      var i := q.base;
      var t := q.tasks[i];
      if t.cancelled then Settle(SkipHead(q))
      else if t.outcome.Some? && t.outcome.value.Failed? then
        Fail(q.(turns := q.turns + [FailedTurn(i)]), t.outcome.value.error)
      else q.(applying := Calling(i), turns := q.turns + [Applied(i, t.outcome)])
  }

  function ApplyReady(q: Queue): Queue {
    if !q.applying.Idle? || q.closed then q else Settle(q)
  }

  /** The bookkeeping at the end of a decode. */
  function MarkDecoded(q: Queue, i: nat, outcome: Outcome): Queue
    requires i < |q.tasks|
  {
    q.(active := q.active - 1, tasks := q.tasks[i := q.tasks[i].(ready := true, outcome := Some(outcome))])
  }

  function MarkStarted(q: Queue, i: nat): Queue
    requires i < |q.tasks|
  {
    q.(active := q.active + 1, metrics := q.metrics.(decodes := q.metrics.decodes + 1),
       tasks := q.tasks[i := q.tasks[i].(started := true)])
  }

  /** The state in which the decoder `next` stands at is called. */
  function Started(q: Queue): Queue
    requires q.next < |q.tasks|
  {
    MarkStarted(q.(next := q.next + 1), q.next)
  }

  /** Starts the decode `next` stands at; one that throws is completed on the spot. */
  function StartNext(q: Queue): Queue
    requires q.next < |q.tasks|
    decreases |q.tasks| - q.next, 0
  {
    var decoder := q.tasks[q.next].decoder;
    if decoder.Throwing? then ApplyReady(Pump(MarkDecoded(Started(q), q.next, Failed(decoder.error)))) else Started(q)
  }

  /** Starts decodes until the parallelism cap is reached or nothing is left to start. */
  function Pump(q: Queue): Queue
    decreases |q.tasks| - q.next, 1
  {
    if q.closed || q.active >= q.limits.parallel || q.next >= |q.tasks| then q
    else
      var t := q.tasks[q.next];
      if t.decoder.NoDecoder? || t.cancelled then Pump(q.(next := q.next + 1))
      else if t.decoder.Throwing? then StartNext(q)
      else Pump(StartNext(q))
  }

  // ---------- the events ----------

  datatype Event =
    | EnqueueWork
    | EnqueueDecode(decoder: Decoder, bytes: int, hasSignal: bool, aborted: bool, heldBytes: nat, heldFrames: nat)
    | DecodeDone(task: nat, outcome: Outcome)
    | ApplyReturned
    | ApplyPromised
    | ApplyThrew(error: int)
    | ApplyResolved
    | ApplyRejected(error: int)
    | Abort(task: nat)
    | Close
    | Drain

  /** Which events the environment can produce in a state. */
  predicate Enabled(q: Queue, e: Event) {
    match e
    case EnqueueDecode(decoder, _, hasSignal, aborted, _, _) => !decoder.NoDecoder? && (aborted ==> hasSignal)
    case DecodeDone(i, _) => i < |q.tasks| && q.tasks[i].InFlight()
    case ApplyReturned => q.applying.Calling? && q.applying.task < |q.tasks|
    case ApplyPromised => q.applying.Calling? && q.applying.task < |q.tasks|
    case ApplyThrew(_) => q.applying.Calling? && q.applying.task < |q.tasks|
    case ApplyResolved => q.applying.Awaiting? && q.applying.task < |q.tasks|
    case ApplyRejected(_) => q.applying.Awaiting? && q.applying.task < |q.tasks|
    case Abort(i) => i < |q.tasks| && q.tasks[i].signal && !q.tasks[i].released
    case _ => true
  }

  function NewTask(decoder: Decoder, bytes: nat, hasSignal: bool): Task {
    Task(decoder, bytes, hasSignal, false, None, decoder.NoDecoder?, false, false)
  }

  function Append(q: Queue, decoder: Decoder, bytes: nat, hasSignal: bool): Queue {
    q.(tasks := q.tasks + [NewTask(decoder, bytes, hasSignal)])
  }

  function Enqueue(q: Queue, decoder: Decoder, bytes: nat, hasSignal: bool, aborted: bool): Queue {
    if q.closed || aborted then q
    else ApplyReady(Pump(Append(q, decoder, bytes, hasSignal)))
  }

  function Max(a: int, b: int): int { if a < b then b else a }

  function Reserve(m: Metrics, bytes: nat): Metrics {
    Metrics(m.frames + 1, m.bytes + bytes,
            Max(m.peakFrames, m.frames + 1), Max(m.peakBytes, m.bytes + bytes), m.decodes)
  }

  /** True when one more frame of this size does not fit beside the pending and the accumulated ones. */
  predicate OverLimit(q: Queue, bytes: int, heldBytes: nat, heldFrames: nat) {
    || q.metrics.frames + heldFrames + 1 > q.limits.frames
    || q.metrics.bytes + heldBytes + bytes > q.limits.bytes
  }

  function EnqueueDecodeStep(q: Queue, decoder: Decoder, bytes: int, hasSignal: bool, aborted: bool,
                             heldBytes: nat, heldFrames: nat): Queue {
    if q.closed || aborted then q
    else if bytes < 0 then q // refused with a validation error
    else if OverLimit(q, bytes, heldBytes, heldFrames) then Fail(q, BUFFER_LIMIT_ERROR)
    else Enqueue(q.(metrics := Reserve(q.metrics, bytes)), decoder, bytes, hasSignal, aborted)
  }

  /** The call of `apply` is over; its task is taken out of the list if it is still the head. */
  function EndApply(q: Queue, i: nat): Queue {
    var idle := q.(applying := Idle);
    if q.base == i && q.base < |q.tasks| then RemoveHead(idle) else idle
  }

  /** The code after a call of `apply` that succeeded. */
  function FinishApply(q: Queue, i: nat): Queue
    requires i < |q.tasks|
  {
    Release(EndApply(q, i), i)
  }

  /** The code after a promise of `apply` that rejected: the error of a cancelled task is ignored. */
  function Rejected(q: Queue, i: nat, error: int): Queue
    requires i < |q.tasks|
  {
    if q.tasks[i].cancelled then FinishDrains(ApplyReady(EndApply(q, i)))
    else Fail(q.(applying := Idle), error)
  }

  function Cancel(q: Queue, i: nat): Queue
    requires i < |q.tasks|
  {
    Release(q.(tasks := q.tasks[i := q.tasks[i].(cancelled := true, ready := true)]), i)
  }

  function Step(q: Queue, e: Event): Queue
    requires Enabled(q, e)
  {
    match e
    case EnqueueWork => Enqueue(q, NoDecoder, 0, false, false)
    case EnqueueDecode(decoder, bytes, hasSignal, aborted, heldBytes, heldFrames) =>
      EnqueueDecodeStep(q, decoder, bytes, hasSignal, aborted, heldBytes, heldFrames)
    case DecodeDone(i, outcome) => ApplyReady(Pump(MarkDecoded(q, i, outcome)))
    case ApplyReturned => Settle(FinishApply(q, q.applying.task))
    case ApplyPromised => q.(applying := Awaiting(q.applying.task))
    case ApplyThrew(error) => Fail(q.(applying := Idle), error)
    case ApplyResolved => FinishDrains(ApplyReady(FinishApply(q, q.applying.task)))
    case ApplyRejected(error) => Rejected(q, q.applying.task, error)
    case Abort(i) => ApplyReady(Cancel(q, i))
    case Close => Clear(q)
    case Drain => if q.base < |q.tasks| then q.(drains := q.drains + 1) else q
  }
}
