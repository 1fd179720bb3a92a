/** Creating decode queues: the check of the limits, and the wrapper that creates a queue on first use. */
module LazyDecodeQueues {
  import opened Wrappers
  import opened DecodeQueues
  import Spec = DecodeQueueSpec
  import Theorems = DecodeQueueTheorems

  datatype LimitError = NotPositive | TooParallel

  /** createParallelChunkDecodeQueue; a queue whose signal has been aborted before is born closed. */
  method CreateDecodeQueue(parallel: int, frames: int, bytes: int, aborted: bool)
    returns (r: Result<DecodeQueue, LimitError>)
    ensures r.Ok? <==> 0 < parallel <= 8 && 0 < frames && 0 < bytes
    ensures r == Err(TooParallel) <==> 8 < parallel && 0 < frames && 0 < bytes
    ensures r.Ok? ==>
              && fresh(r.value) && r.value.Valid() && r.value.order == []
              && r.value.limits == Spec.Limits(parallel, frames, bytes)
              && r.value.st ==
                    (if aborted then Spec.Clear(Spec.Initial(r.value.limits)) else Spec.Initial(r.value.limits))
  {
    if parallel <= 0 || frames <= 0 || bytes <= 0 {
      return Err(NotPositive);
    }
    if parallel > Spec.MAX_PARALLEL_CHUNK_DECODES {
      return Err(TooParallel);
    }
    var queue := new DecodeQueue(Spec.Limits(parallel, frames, bytes));
    if aborted {
      queue.Close();
    }
    return Ok(queue);
  }

  lemma ClearCloses(q: Spec.Queue)
    ensures Spec.Clear(q).closed
  {
    if !q.closed {
      Theorems.RemoveAllServes(q.(closed := true));
    }
  }

  lemma ClearingTwice(q: Spec.Queue)
    ensures Spec.Clear(q).closed && Spec.Clear(Spec.Clear(q)) == Spec.Clear(q)
  {
    ClearCloses(q);
  }

  /** What a queue created at once would be, given the one there is and whether the wrapper is shut. */
  function EagerOf(limits: Spec.Limits, queue: Option<Spec.Queue>, shut: bool): Spec.Queue {
    if shut && (queue.None? || !queue.value.closed) then Spec.Clear(Spec.Initial(limits))
    else if queue.None? then Spec.Initial(limits)
    else queue.value
  }

  lemma ShutIsClear(limits: Spec.Limits, queue: Option<Spec.Queue>, shut: bool)
    requires shut && queue.Some? && !queue.value.closed ==> queue.value == Spec.Initial(limits)
    ensures EagerOf(limits, if queue.None? then None else Some(Spec.Clear(queue.value)), true)
            == Spec.Clear(EagerOf(limits, queue, shut))
  {
    ClearingTwice(Spec.Initial(limits));
    if queue.Some? {
      ClearCloses(queue.value);
    }
  }

  /**
   createLazyParallelChunkDecodeQueue, with limits that are valid; `aborted` is the state of the signal in its
   options.
   */
  class LazyDecodeQueue {
    const limits: Spec.Limits
    var queue: DecodeQueue?
    var closed: bool
    var aborted: bool

    ghost predicate Valid()
      reads this, queue, if queue != null then queue.order else []
    {
      && Spec.ValidLimits(limits)
      && (queue != null ==> queue.Valid() && queue.limits == limits)
      && (queue != null && aborted ==> queue.st.closed)
      && (queue != null && closed && !queue.st.closed ==> queue.st == Spec.Initial(limits))
    }

    ghost function State(): Option<Spec.Queue>
      reads this, queue
    {
      if queue == null then None else Some(queue.st)
    }

    /** What an eager queue would have come to. */
    ghost function Eager(): Spec.Queue
      reads this, queue
    {
      EagerOf(limits, State(), closed || aborted)
    }

    constructor (limits: Spec.Limits, aborted: bool)
      requires Spec.ValidLimits(limits)
      ensures Valid() && this.aborted == aborted
      ensures Eager() == if aborted then Spec.Clear(Spec.Initial(limits)) else Spec.Initial(limits)
    {
      this.limits, queue, closed, this.aborted := limits, null, false, aborted;
    }

    method GetQueue() returns (q: DecodeQueue)
      requires Valid()
      modifies `queue
      ensures Valid() && q == queue && (old(queue) != null ==> q == old(queue))
              && (old(queue) == null ==> fresh(q) && q.order == [])
      ensures Eager() == old(Eager())
      ensures old(queue) != null ==> q.st == old(queue.st)
      ensures old(queue) == null ==> q.st == if aborted then Spec.Clear(Spec.Initial(limits)) else Spec.Initial(limits)
    {
      if queue == null {
        ClearingTwice(Spec.Initial(limits));
        var r := CreateDecodeQueue(limits.parallel, limits.frames, limits.bytes, aborted);
        queue := r.value;
      }
      q := queue;
    }

    method EnqueueOrderedWork() returns (task: Task?)
      requires Valid()
      modifies this, queue, if queue != null then queue.order else []
      ensures Valid() && Eager() == Spec.Step(old(Eager()), Spec.EnqueueWork)
      ensures task == null <==> old(Eager()).closed
    {
      if closed {
        ClosedIsClosed();
        return null;
      }
      var q := GetQueue();
      task := q.EnqueueOrderedWork();
    }

    method EnqueueDecodeThenOrdered(decoder: Spec.Decoder, bytes: int, hasSignal: bool, hasAborted: bool,
                                    heldBytes: nat, heldFrames: nat)
      returns (refused: bool, task: Task?)
      requires Valid() && !decoder.NoDecoder? && (hasAborted ==> hasSignal)
      modifies this, queue, if queue != null then queue.order else []
      ensures Valid()
      ensures Eager() ==
              Spec.Step(old(Eager()), Spec.EnqueueDecode(decoder, bytes, hasSignal, hasAborted, heldBytes, heldFrames))
      ensures refused <==> !old(Eager()).closed && !hasAborted && bytes < 0
    {
      if closed {
        ClosedIsClosed();
        return false, null;
      }
      var q := GetQueue();
      refused, task := q.EnqueueDecodeThenOrdered(decoder, bytes, hasSignal, hasAborted, heldBytes, heldFrames);
    }

    lemma ClosedIsClosed()
      requires closed && Valid()
      ensures Eager().closed
    {
    }

    method DrainOrderedWork() returns (waits: bool)
      requires Valid()
      modifies this, queue, if queue != null then queue.order else []
      ensures Valid() && Eager() == Spec.Step(old(Eager()), Spec.Drain)
      ensures waits <==> Eager().drains > old(Eager()).drains
    {
      waits := false;
      if queue != null {
        waits := queue.DrainOrderedWork();
      }
    }

    /** Closing a wrapper that has no queue yet leaves nothing to close. */
    method Close()
      requires Valid()
      modifies this, queue, if queue != null then queue.order else []
      ensures Valid() && closed && Eager() == Spec.Clear(old(Eager()))
    {
      CloseQueue();
      closed := true;
      assert Eager() == EagerOf(limits, State(), true);
    }

    /** Closes the queue there is; with the wrapper shut, this closes the queue it stands for. */
    method CloseQueue()
      requires Valid()
      modifies queue, if queue != null then queue.order else []
      ensures queue != null ==> queue.Valid() && queue.limits == limits && queue.st.closed
      ensures EagerOf(limits, State(), true) == Spec.Clear(old(Eager()))
    {
      ShutIsClear(limits, State(), closed || aborted);
      if queue != null {
        ClearCloses(queue.st);
        queue.Close();
      }
    }

    /** The signal aborts once; without a queue nobody listens, and the queue is born closed later. */
    method SignalAborted()
      requires Valid() && !aborted
      modifies this, queue, if queue != null then queue.order else []
      ensures Valid() && aborted && closed == old(closed) && Eager() == Spec.Clear(old(Eager()))
    {
      CloseQueue();
      aborted := true;
      assert Eager() == EagerOf(limits, State(), true);
    }

    /** Looking at the metrics creates the queue, also after the wrapper was closed. */
    method Metrics() returns (m: Spec.Metrics)
      requires Valid()
      modifies `queue
      ensures Valid() && Eager() == old(Eager()) && m == Eager().metrics
    {
      var q := GetQueue();
      m := q.metrics;
    }
  }
}
