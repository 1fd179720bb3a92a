/** The decode queue itself: an intrusive linked list that three pointers walk, refining the state machine. */
module DecodeQueues {
  import opened Wrappers
  import Spec = DecodeQueueSpec
  import Safety = DecodeQueueSafety
  import Theorems = DecodeQueueTheorems

  /** A node of the list.  Its own fields are one record; `started` in it is bookkeeping no method reads. */
  class Task {
    ghost const index: nat // its number in the order of enqueueing
    var next: Task?
    var state: Spec.Task

    constructor (state: Spec.Task, ghost index: nat)
      ensures this.state == state && this.index == index && next == null
    {
      this.state, this.index, next := state, index, null;
    }
  }

  class DecodeQueue {
    const limits: Spec.Limits
    var active: int
    var closed: bool
    var applying: bool
    var current: Task? // the task whose `apply` is in progress
    var awaiting: bool // whether that call has returned a promise
    var head: Task?
    var tail: Task?
    var nextDecode: Task?
    var metrics: Spec.Metrics
    var drains: nat // the waiters for an empty list
    var errors: seq<int> // what onError was called with

    ghost var order: seq<Task> // every task ever enqueued
    ghost var st: Spec.Queue

    /** The task at a position of the order, or no task past its end. */
    ghost function At(i: nat): Task?
      reads `order
    {
      if i < |order| then order[i] else null
    }

    ghost predicate Numbered()
      reads `order
    {
      forall i :: 0 <= i < |order| ==> order[i].index == i
    }

    ghost predicate Flags(ts: seq<Spec.Task>)
      reads `order, order`state
    {
      && |order| == |ts|
      && (forall i :: 0 <= i < |order| ==> order[i].state == ts[i])
    }

    /** The list from `head` on is the order from `base` on. */
    ghost predicate Linked(base: nat, next: nat)
      reads `head, `tail, `nextDecode, `order, order`next
    {
      && head == At(base)
      && nextDecode == At(next)
      && tail == (if base < |order| then order[|order| - 1] else null)
      && (forall i {:trigger order[i].next} :: base <= i < |order| ==> order[i].next == At(i + 1))
    }

    ghost predicate Scalars(q: Spec.Queue)
      reads `active, `closed, `applying, `current, `awaiting, `metrics, `drains, `errors, `order
    {
      && limits == q.limits
      && active == q.active
      && closed == q.closed
      && applying == !q.applying.Idle?
      && (applying ==>
          q.applying.task < |order| && current == order[q.applying.task] && awaiting == q.applying.Awaiting?)
      && metrics == q.metrics
      && drains == q.drains
      && errors == q.errors
    }

    /** The pointers and fields say what a state of the machine says. */
    ghost predicate Shows(q: Spec.Queue)
      reads `active, `closed, `applying, `current, `awaiting, `metrics, `drains, `errors
      reads `head, `tail, `nextDecode, `order, order`state, order`next
    {
      q.base <= q.next <= |order| && Numbered() && Flags(q.tasks) && Linked(q.base, q.next) && Scalars(q)
    }

    ghost predicate Valid()
      reads this, order
    {
      Shows(st) && Safety.Reachable(limits, st)
    }

    constructor (limits: Spec.Limits)
      requires Spec.ValidLimits(limits)
      ensures Valid() && order == [] && st == Spec.Initial(limits)
    {
      this.limits := limits;
      active, closed, applying, current, awaiting := 0, false, false, null, false;
      head, tail, nextDecode := null, null, null;
      metrics := Spec.Metrics(0, 0, 0, 0, 0);
      drains, errors := 0, [];
      order, st := [], Spec.Initial(limits);
      Safety.ReachableInitially(limits);
    }

    // ---------- internal procedures ----------

    method RemoveHead(ghost q: Spec.Queue)
      requires Shows(q) && q.base < |order|
      modifies `head, `tail, `nextDecode, head`next
      ensures Shows(Spec.RemoveHead(q))
    {
      Unlink(q.base, q.next);
    }

    /** Takes the first node out of the list. */
    method Unlink(ghost base: nat, ghost next: nat)
      requires Numbered() && base <= next <= |order| && base < |order| && Linked(base, next)
      modifies `head, `tail, `nextDecode, head`next
      ensures Linked(base + 1, if next == base then base + 1 else next)
    {
      var task := head;
      assert forall i :: base < i < |order| ==> order[i].index != task.index;
      head := task.next;
      if nextDecode == task {
        nextDecode := head;
      }
      if head == null {
        tail := null;
      }
      task.next := null;
    }

    method Release(task: Task, ghost i: nat, ghost q: Spec.Queue)
      requires Shows(q) && i < |order| && order[i] == task
      modifies `metrics, task`state
      ensures Shows(Spec.Release(q, i))
    {
      if !task.state.released {
        if !task.state.decoder.NoDecoder? {
          metrics := metrics.(frames := metrics.frames - 1, bytes := metrics.bytes - task.state.bytes);
        }
        SetState(task, i, task.state.(released := true), q.tasks);
      }
    }

    /** Changes one task. */
    method SetState(task: Task, ghost i: nat, t: Spec.Task, ghost ts: seq<Spec.Task>)
      requires Numbered() && Flags(ts) && i < |order| && order[i] == task
      modifies task`state
      ensures Flags(ts[i := t])
    {
      assert forall j :: 0 <= j < |order| && j != i ==> order[j].index != task.index;
      task.state := t;
    }

    method FinishDrains(ghost q: Spec.Queue)
      requires Shows(q)
      modifies `drains
      ensures Shows(Spec.FinishDrains(q))
    {
      if head == null {
        drains := 0;
      }
    }

    method DropHead(ghost q: Spec.Queue)
      requires Shows(q) && q.base < |order|
      modifies `head, `tail, `nextDecode, `metrics, head
      ensures Shows(Spec.DropHead(q))
    {
      var task := head;
      ghost var i := q.base;
      RemoveHead(q);
      task.state := task.state.(cancelled := true);
      Release(task, i, Spec.RemoveHead(q).(tasks := q.tasks[i := q.tasks[i].(cancelled := true)]));
    }

    method ClearPendingDecodes(ghost q: Spec.Queue)
      requires Shows(q)
      modifies this, order
      ensures order == old(order) && st == old(st)
      ensures Shows(Spec.Clear(q))
    {
      if !closed {
        closed := true;
        RemoveAll(q.(closed := true));
        FinishDrains(Spec.RemoveAll(q.(closed := true)));
      }
    }

    method RemoveAll(ghost q: Spec.Queue)
      requires Shows(q)
      modifies this, order
      ensures order == old(order) && st == old(st)
      ensures Shows(Spec.RemoveAll(q))
    {
      ghost var c := q;
      while head != null
        invariant order == old(order) && st == old(st)
        invariant Shows(c)
        invariant Spec.RemoveAll(c) == Spec.RemoveAll(q)
        decreases |order| - c.base
      {
        DropHead(c);
        c := Spec.DropHead(c);
      }
    }

    method Fail(error: int, ghost q: Spec.Queue)
      requires Shows(q)
      modifies this, order
      ensures order == old(order) && st == old(st)
      ensures Shows(Spec.Fail(q, error))
    {
      if !closed {
        ClearPendingDecodes(q);
        errors := errors + [error];
      }
    }

    /** The loop of applyReady.  When a head must be applied, control goes to the environment. */
    method ServeHeads(ghost q: Spec.Queue)
      requires Shows(q) && !applying
      modifies this, order
      ensures order == old(order) && st == old(st)
      ensures Shows(Spec.Settle(q))
    {
      ghost var c := q;
      while head != null && head.state.ready && head.state.cancelled
        invariant order == old(order) && st == old(st)
        invariant Shows(c) && !applying
        invariant Spec.Settle(c) == Spec.Settle(q)
        decreases |order| - c.base
      {
        SkipHead(c);
        c := Spec.SkipHead(c);
      }
      if head == null || !head.state.ready {
        FinishDrains(c);
      } else {
        ServeHead(c);
      }
    }

    /** The head is ready and not cancelled: it fails the queue, or it is applied. */
    method ServeHead(ghost q: Spec.Queue)
      requires Shows(q) && !applying && head != null && head.state.ready && !head.state.cancelled
      modifies this, order
      ensures order == old(order) && st == old(st)
      ensures Shows(Spec.Settle(q))
    {
      var task := head;
      if task.state.outcome.Some? && task.state.outcome.value.Failed? {
        Fail(task.state.outcome.value.error, q.(turns := q.turns + [Spec.FailedTurn(q.base)]));
      } else {
        applying, current, awaiting := true, task, false;
      }
    }

    method SkipHead(ghost q: Spec.Queue)
      requires Shows(q) && q.base < |order|
      modifies `head, `tail, `nextDecode, `metrics, head
      ensures Shows(Spec.SkipHead(q))
    {
      var task := head;
      RemoveHead(q);
      Release(task, q.base, Spec.RemoveHead(q));
    }

    method ApplyReady(ghost q: Spec.Queue)
      requires Shows(q)
      modifies this, order
      ensures order == old(order) && st == old(st)
      ensures Shows(Spec.ApplyReady(q))
    {
      if !applying && !closed {
        ServeHeads(q);
      }
    }

    method Complete(task: Task, outcome: Spec.Outcome, ghost i: nat, ghost q: Spec.Queue)
      requires Shows(q) && i < |order| && order[i] == task
      modifies `active, task`state
      ensures Shows(Spec.MarkDecoded(q, i, outcome))
    {
      active := active - 1;
      task.state := task.state.(ready := true, outcome := Some(outcome));
    }

    method Start(task: Task, ghost i: nat, ghost q: Spec.Queue)
      requires Shows(q) && i < |order| && order[i] == task
      modifies `active, `metrics, task`state
      ensures Shows(Spec.MarkStarted(q, i))
    {
      active := active + 1;
      metrics := metrics.(decodes := metrics.decodes + 1);
      task.state := task.state.(started := true);
    }

    method Advance(ghost q: Spec.Queue)
      requires Shows(q) && q.next < |order|
      modifies `nextDecode
      ensures Shows(q.(next := q.next + 1))
    {
      nextDecode := nextDecode.next;
    }

    method TakeNext(task: Task, ghost q: Spec.Queue)
      requires Shows(q) && q.next < |order| && nextDecode == task
      modifies `nextDecode, `active, `metrics, task`state
      ensures Shows(Spec.Started(q))
      ensures task.state == old(task.state).(started := true)
    {
      Advance(q);
      Start(task, q.next, q.(next := q.next + 1));
    }

    /** Starts the decode `nextDecode` points at. */
    method StartNext(task: Task, ghost q: Spec.Queue)
      requires Shows(q) && q.next < |order| && nextDecode == task && task.state.decoder == q.tasks[q.next].decoder
      modifies this, order
      ensures order == old(order) && st == old(st)
      ensures Shows(Spec.StartNext(q))
      decreases |order| - q.next, 0
    {
      ghost var started := Spec.Started(q);
      TakeNext(task, q);
      if task.state.decoder.Throwing? {
        FailNow(task, q.next, started);
      }
    }

    /** What happens when a decoder throws at once: the decode ends before it is under way. */
    method FailNow(task: Task, ghost i: nat, ghost q: Spec.Queue)
      requires Shows(q) && i < |order| && order[i] == task && task.state.decoder.Throwing?
      modifies this, order
      ensures order == old(order) && st == old(st)
      ensures Shows(Spec.ApplyReady(Spec.Pump(Spec.MarkDecoded(q, i, Spec.Failed(q.tasks[i].decoder.error)))))
      decreases |order| - q.next, 3
    {
      var outcome := Spec.Failed(task.state.decoder.error);
      Complete(task, outcome, i, q);
      Progress(Spec.MarkDecoded(q, i, outcome));
    }

    method Progress(ghost q: Spec.Queue)
      requires Shows(q)
      modifies this, order
      ensures order == old(order) && st == old(st)
      ensures Shows(Spec.ApplyReady(Spec.Pump(q)))
      decreases |order| - q.next, 2
    {
      Pump(q);
      ApplyReady(Spec.Pump(q));
    }

    method Pump(ghost q: Spec.Queue)
      requires Shows(q)
      modifies this, order
      ensures order == old(order) && st == old(st)
      ensures Shows(Spec.Pump(q))
      decreases |order| - q.next, 1
    {
      ghost var c := q;
      while !closed && active < limits.parallel && nextDecode != null
        invariant order == old(order) && st == old(st)
        invariant Shows(c) && c.next >= q.next
        invariant Spec.Pump(c) == Spec.Pump(q)
        decreases |order| - c.next
      {
        if nextDecode.state.decoder.NoDecoder? || nextDecode.state.cancelled {
          Advance(c);
          c := c.(next := c.next + 1);
        } else {
          StartNext(nextDecode, c);
          Theorems.PumpContinues(c);
          c := Spec.StartNext(c);
        }
      }
    }

    /** Puts a new task at the end of the list. */
    method Append(task: Task, ghost q: Spec.Queue)
      requires Shows(q) && !closed
      requires task !in order && task.index == |order| && task.next == null
      modifies `tail, `head, `nextDecode, `order, order
      ensures order == old(order) + [task]
      ensures Shows(q.(tasks := q.tasks + [task.state]))
    {
      LinkAtTail(task, q.base, q.next);
    }

    method LinkAtTail(task: Task, ghost base: nat, ghost next: nat)
      requires Numbered() && base <= next <= |order| && Linked(base, next)
      requires task !in order && task.index == |order| && task.next == null
      modifies `tail, `head, `nextDecode, `order, order`next
      ensures order == old(order) + [task] && Numbered() && Linked(base, next)
    {
      if tail != null {
        tail.next := task;
      } else {
        head := task;
      }
      tail := task;
      if nextDecode == null {
        nextDecode := task;
      }
      order := order + [task];
    }

    method Enqueue(decoder: Spec.Decoder, bytes: nat, hasSignal: bool, aborted: bool, ghost q: Spec.Queue)
      returns (task: Task?)
      requires Shows(q)
      modifies this, order
      ensures old(order) <= order && st == old(st)
      ensures Shows(Spec.Enqueue(q, decoder, bytes, hasSignal, aborted))
      ensures task == null <==> old(closed) || aborted
      ensures task != null ==> fresh(task) && order == old(order) + [task]
      ensures task == null ==> order == old(order)
    {
      if closed || aborted {
        return null;
      }
      task := new Task(Spec.NewTask(decoder, bytes, hasSignal), |order|);
      Append(task, q);
      Progress(Spec.Append(q, decoder, bytes, hasSignal));
    }

    method Admit(decoder: Spec.Decoder, bytes: int, hasSignal: bool, aborted: bool, heldBytes: nat, heldFrames: nat,
                 ghost q: Spec.Queue)
      returns (refused: bool, task: Task?)
      requires Shows(q)
      modifies this, order
      ensures old(order) <= order && st == old(st)
      ensures Shows(Spec.EnqueueDecodeStep(q, decoder, bytes, hasSignal, aborted, heldBytes, heldFrames))
      ensures refused <==> !old(closed) && !aborted && bytes < 0
      ensures task != null ==> fresh(task) && order == old(order) + [task]
      ensures task == null ==> order == old(order)
      ensures task != null <==>
              !old(closed) && !aborted && bytes >= 0 && !Spec.OverLimit(q, bytes, heldBytes, heldFrames)
    {
      refused, task := false, null;
      if closed || aborted {
      } else if bytes < 0 {
        refused := true;
      } else if metrics.frames + heldFrames + 1 > limits.frames || metrics.bytes + heldBytes + bytes > limits.bytes {
        Fail(Spec.BUFFER_LIMIT_ERROR, q);
      } else {
        metrics := Spec.Reserve(metrics, bytes);
        task := Enqueue(decoder, bytes, hasSignal, aborted, q.(metrics := metrics));
      }
    }

    /** `apply` ended well: its task leaves the list if it is still in it. */
    method FinishApply(ghost q: Spec.Queue)
      requires Shows(q) && applying
      modifies this, order
      ensures order == old(order) && st == old(st) && !applying
      ensures Shows(Spec.FinishApply(q, q.applying.task))
    {
      ghost var i := q.applying.task;
      EndApply(q);
      Release(current, i, Spec.EndApply(q, i));
    }

    /** The call of `apply` is over; its task is taken out of the list if it is the head. */
    method EndApply(ghost q: Spec.Queue)
      requires Shows(q) && applying
      modifies `applying, `head, `tail, `nextDecode, head
      ensures Shows(Spec.EndApply(q, q.applying.task)) && !applying && current == old(current)
    {
      applying := false;
      if head == current {
        RemoveHead(q.(applying := Spec.Idle));
      }
    }

    method Resolve(ghost q: Spec.Queue)
      requires Shows(q) && applying
      modifies this, order
      ensures order == old(order) && st == old(st)
      ensures Shows(Spec.FinishDrains(Spec.ApplyReady(Spec.FinishApply(q, q.applying.task))))
    {
      ghost var finished := Spec.FinishApply(q, q.applying.task);
      FinishApply(q);
      ApplyReady(finished);
      FinishDrains(Spec.ApplyReady(finished));
    }

    method Reject(error: int, ghost q: Spec.Queue)
      requires Shows(q) && applying
      modifies this, order
      ensures order == old(order) && st == old(st)
      ensures Shows(Spec.Rejected(q, q.applying.task, error))
    {
      if current.state.cancelled {
        IgnoreRejection(q);
      } else {
        Throw(error, q);
      }
    }

    method IgnoreRejection(ghost q: Spec.Queue)
      requires Shows(q) && applying
      modifies this, order
      ensures order == old(order) && st == old(st)
      ensures Shows(Spec.FinishDrains(Spec.ApplyReady(Spec.EndApply(q, q.applying.task))))
    {
      ghost var ended := Spec.EndApply(q, q.applying.task);
      EndApply(q);
      ApplyReady(ended);
      FinishDrains(Spec.ApplyReady(ended));
    }

    method Cancel(task: Task, ghost i: nat, ghost q: Spec.Queue)
      requires Shows(q) && i < |order| && order[i] == task
      modifies `metrics, task`state
      ensures Shows(Spec.Cancel(q, i))
    {
      task.state := task.state.(cancelled := true, ready := true);
      Release(task, i, q.(tasks := q.tasks[i := q.tasks[i].(cancelled := true, ready := true)]));
    }

    method Finish(task: Task, outcome: Spec.Outcome, ghost i: nat, ghost q: Spec.Queue)
      requires Shows(q) && i < |order| && order[i] == task
      modifies this, order
      ensures order == old(order) && st == old(st)
      ensures Shows(Spec.ApplyReady(Spec.Pump(Spec.MarkDecoded(q, i, outcome))))
    {
      Complete(task, outcome, i, q);
      Progress(Spec.MarkDecoded(q, i, outcome));
    }

    method Return(ghost q: Spec.Queue)
      requires Shows(q) && applying
      modifies this, order
      ensures order == old(order) && st == old(st)
      ensures Shows(Spec.Settle(Spec.FinishApply(q, q.applying.task)))
    {
      FinishApply(q);
      ServeHeads(Spec.FinishApply(q, q.applying.task));
    }

    method Throw(error: int, ghost q: Spec.Queue)
      requires Shows(q) && applying
      modifies this, order
      ensures order == old(order) && st == old(st)
      ensures Shows(Spec.Fail(q.(applying := Spec.Idle), error))
    {
      applying := false;
      Fail(error, q.(applying := Spec.Idle));
    }

    method CancelTask(task: Task, ghost i: nat, ghost q: Spec.Queue)
      requires Shows(q) && i < |order| && order[i] == task
      modifies this, order
      ensures order == old(order) && st == old(st)
      ensures Shows(Spec.ApplyReady(Spec.Cancel(q, i)))
    {
      Cancel(task, i, q);
      ApplyReady(Spec.Cancel(q, i));
    }

    /** The state the fields have been brought to is the next one of the run. */
    ghost method Commit(q: Spec.Queue)
      requires Shows(q) && Safety.Reachable(limits, q)
      modifies `st
      ensures Valid() && st == q
    {
      st := q;
    }

    // ---------- the events ----------

    method EnqueueOrderedWork() returns (task: Task?)
      requires Valid()
      modifies this, order
      ensures Valid() && old(order) <= order
      ensures st == Spec.Step(old(st), Spec.EnqueueWork)
      ensures task == null <==> old(closed)
      ensures task != null ==> fresh(task) && order == old(order) + [task]
    {
      ghost var after := Spec.Step(st, Spec.EnqueueWork);
      Safety.ReachableStep(limits, st, Spec.EnqueueWork);
      task := Enqueue(Spec.NoDecoder, 0, false, false, st);
      Commit(after);
    }

    /**
     `refused` is the validation error for a negative reservation; `task` is absent when the completion resolves
     at once.
     */
    method EnqueueDecodeThenOrdered(decoder: Spec.Decoder, bytes: int, hasSignal: bool, aborted: bool,
                                    heldBytes: nat, heldFrames: nat)
      returns (refused: bool, task: Task?)
      requires Valid() && !decoder.NoDecoder? && (aborted ==> hasSignal)
      modifies this, order
      ensures Valid() && old(order) <= order
      ensures st == Spec.Step(old(st), Spec.EnqueueDecode(decoder, bytes, hasSignal, aborted, heldBytes, heldFrames))
      ensures refused <==> !old(closed) && !aborted && bytes < 0
      ensures refused ==> st == old(st)
      ensures task != null ==> fresh(task) && order == old(order) + [task]
      ensures task != null <==>
              !old(closed) && !aborted && bytes >= 0 && !Spec.OverLimit(old(st), bytes, heldBytes, heldFrames)
    {
      ghost var e := Spec.EnqueueDecode(decoder, bytes, hasSignal, aborted, heldBytes, heldFrames);
      ghost var after := Spec.Step(st, e);
      Safety.ReachableStep(limits, st, e);
      refused, task := Admit(decoder, bytes, hasSignal, aborted, heldBytes, heldFrames, st);
      Commit(after);
    }

    method DecodeDone(task: Task, outcome: Spec.Outcome)
      requires Valid() && task in order && task.state.InFlight()
      modifies this, order
      ensures Valid() && order == old(order)
      ensures st == Spec.Step(old(st), Spec.DecodeDone(task.index, outcome))
    {
      ghost var i := task.index;
      ghost var after := Spec.Step(st, Spec.DecodeDone(i, outcome));
      Safety.ReachableStep(limits, st, Spec.DecodeDone(i, outcome));
      Finish(task, outcome, i, st);
      Commit(after);
    }

    method ApplyReturned()
      requires Valid() && applying && !awaiting
      modifies this, order
      ensures Valid() && order == old(order)
      ensures st == Spec.Step(old(st), Spec.ApplyReturned)
    {
      ghost var after := Spec.Step(st, Spec.ApplyReturned);
      Safety.ReachableStep(limits, st, Spec.ApplyReturned);
      Return(st);
      Commit(after);
    }

    method ApplyPromised()
      requires Valid() && applying && !awaiting
      modifies this, order
      ensures Valid() && order == old(order)
      ensures st == Spec.Step(old(st), Spec.ApplyPromised)
    {
      ghost var after := Spec.Step(st, Spec.ApplyPromised);
      Safety.ReachableStep(limits, st, Spec.ApplyPromised);
      awaiting := true;
      Commit(after);
    }

    method ApplyThrew(error: int)
      requires Valid() && applying && !awaiting
      modifies this, order
      ensures Valid() && order == old(order)
      ensures st == Spec.Step(old(st), Spec.ApplyThrew(error))
    {
      ghost var after := Spec.Step(st, Spec.ApplyThrew(error));
      Safety.ReachableStep(limits, st, Spec.ApplyThrew(error));
      Throw(error, st);
      Commit(after);
    }

    method ApplyResolved()
      requires Valid() && applying && awaiting
      modifies this, order
      ensures Valid() && order == old(order)
      ensures st == Spec.Step(old(st), Spec.ApplyResolved)
    {
      ghost var after := Spec.Step(st, Spec.ApplyResolved);
      Safety.ReachableStep(limits, st, Spec.ApplyResolved);
      Resolve(st);
      Commit(after);
    }

    /** The error of a task cancelled meanwhile is ignored; any other fails the queue. */
    method ApplyRejected(error: int)
      requires Valid() && applying && awaiting
      modifies this, order
      ensures Valid() && order == old(order)
      ensures st == Spec.Step(old(st), Spec.ApplyRejected(error))
    {
      ghost var after := Spec.Step(st, Spec.ApplyRejected(error));
      Safety.ReachableStep(limits, st, Spec.ApplyRejected(error));
      Reject(error, st);
      Commit(after);
    }

    /** A task's own signal fires. */
    method Abort(task: Task)
      requires Valid() && task in order && task.state.signal && !task.state.released
      modifies this, order
      ensures Valid() && order == old(order)
      ensures st == Spec.Step(old(st), Spec.Abort(task.index))
    {
      ghost var i := task.index;
      ghost var after := Spec.Step(st, Spec.Abort(i));
      Safety.ReachableStep(limits, st, Spec.Abort(i));
      CancelTask(task, i, st);
      Commit(after);
    }

    /** clearPendingDecodes, called by the owner or by the queue's own signal. */
    method Close()
      requires Valid()
      modifies this, order
      ensures Valid() && order == old(order)
      ensures st == Spec.Step(old(st), Spec.Close)
    {
      ghost var after := Spec.Step(st, Spec.Close);
      Safety.ReachableStep(limits, st, Spec.Close);
      ClearPendingDecodes(st);
      Commit(after);
    }

    /** Waits for an empty list; `waits` is false when there is nothing to wait for. */
    method DrainOrderedWork() returns (waits: bool)
      requires Valid()
      modifies this, order
      ensures Valid() && order == old(order)
      ensures st == Spec.Step(old(st), Spec.Drain)
      ensures waits == (st.drains > old(st).drains)
    {
      ghost var after := Spec.Step(st, Spec.Drain);
      Safety.ReachableStep(limits, st, Spec.Drain);
      waits := head != null;
      if waits {
        drains := drains + 1;
      }
      Commit(after);
    }
  }
}
