/** What each event does to a decode queue: which tasks it changes, how, and which errors it reports. */
module DecodeQueueEffects {
  import opened Wrappers
  import opened DecodeQueueSpec
  import opened DecodeQueueInvariant
  import opened DecodeQueueSafety
  import opened DecodeQueueTheorems

  // ---------- what serving the queue does by itself ----------

  /** A task gets an outcome by itself only if its decoder throws when it is called, and then that error. */
  ghost predicate SameTask(t: Task, u: Task, closing: bool) {
    && u.decoder == t.decoder && u.bytes == t.bytes && u.signal == t.signal
    && (u.outcome == t.outcome || (t.decoder.Throwing? && u.outcome == Some(Failed(t.decoder.error))))
    && (u.cancelled == t.cancelled || (closing && u.cancelled))
  }

  /** No failure: nothing is reported, nothing closed, and no turn is a failed one. */
  ghost predicate Quiet(q: Queue, r: Queue) {
    && r.errors == q.errors && r.closed == q.closed && |q.turns| <= |r.turns|
    && forall k :: |q.turns| <= k < |r.turns| ==> !r.turns[k].FailedTurn?
  }

  /** The last turn is that of a task that failed; its own error is reported, and the queue is closed. */
  ghost predicate Reports(q: Queue, r: Queue) {
    && !q.closed && r.closed && |q.turns| < |r.turns|
    && (forall k :: |q.turns| <= k < |r.turns| - 1 ==> !r.turns[k].FailedTurn?)
    && var last := r.turns[|r.turns| - 1];
       && last.FailedTurn? && last.task < |r.tasks|
       && r.tasks[last.task].outcome.Some? && r.tasks[last.task].outcome.value.Failed?
       && r.errors == q.errors + [r.tasks[last.task].outcome.value.error]
  }

  ghost predicate TasksKept(q: Queue, r: Queue) {
    && |r.tasks| == |q.tasks|
    && forall i :: 0 <= i < |q.tasks| ==> SameTask(q.tasks[i], r.tasks[i], !q.closed && r.closed)
  }

  ghost predicate CountersKept(q: Queue, r: Queue) {
    && r.limits == q.limits && q.base <= r.base
    && r.metrics.peakFrames == q.metrics.peakFrames && r.metrics.peakBytes == q.metrics.peakBytes
    && (r.drains == q.drains || (r.drains == 0 && r.base >= |r.tasks|))
  }

  ghost predicate Works(q: Queue, r: Queue) {
    && TasksKept(q, r) && CountersKept(q, r) && (Quiet(q, r) || Reports(q, r))
    && (q.closed ==> r.turns == q.turns && r.tasks == q.tasks)
  }

  lemma TasksTrans(q: Queue, m: Queue, r: Queue)
    requires TasksKept(q, m) && TasksKept(m, r) && (q.closed ==> m.closed)
             && (m.closed ==> r.closed && r.tasks == m.tasks)
    ensures TasksKept(q, r)
  {
    forall i | 0 <= i < |q.tasks| ensures SameTask(q.tasks[i], r.tasks[i], !q.closed && r.closed) {
      assert SameTask(q.tasks[i], m.tasks[i], !q.closed && m.closed);
      assert SameTask(m.tasks[i], r.tasks[i], !m.closed && r.closed);
    }
  }

  lemma WorksTrans(q: Queue, m: Queue, r: Queue)
    requires Works(q, m) && Works(m, r) && q.turns <= m.turns <= r.turns
    ensures Works(q, r)
  {
    TasksTrans(q, m, r);
    assert Quiet(q, r) || Reports(q, r) by {
      assert forall k :: |q.turns| <= k < |m.turns| ==> r.turns[k] == m.turns[k];
    }
  }

  ghost predicate Emptied(t: Task, u: Task) {
    SameTask(t, u, true) && u.outcome == t.outcome
  }

  /** Emptying the list changes no outcome, turn or error. */
  lemma {:induction false} RemoveAllWorks(q: Queue)
    requires q.closed
    ensures var r := RemoveAll(q);
      && |r.tasks| == |q.tasks| && r.closed && r.turns == q.turns && r.errors == q.errors && r.drains == q.drains
      && r.limits == q.limits && r.base >= q.base && r.base >= |r.tasks|
      && r.metrics.peakFrames == q.metrics.peakFrames && r.metrics.peakBytes == q.metrics.peakBytes
      && (forall i :: 0 <= i < |q.tasks| ==> Emptied(q.tasks[i], r.tasks[i]))
    decreases |q.tasks| - q.base
  {
    if q.base < |q.tasks| {
      var m := DropHead(q);
      RemoveAllWorks(m);
      forall i | 0 <= i < |q.tasks| ensures Emptied(q.tasks[i], RemoveAll(q).tasks[i]) {
        assert Emptied(q.tasks[i], m.tasks[i]) && Emptied(m.tasks[i], RemoveAll(m).tasks[i]);
      }
    }
  }

  /** Closing changes nothing but the tasks in the list, which it cancels. */
  lemma ClearWorks(q: Queue)
    ensures var r := Clear(q);
      TasksKept(q, r) && CountersKept(q, r) && r.closed && r.turns == q.turns && r.errors == q.errors
      && (q.closed ==> r == q)
      && (forall i :: 0 <= i < |q.tasks| ==> Emptied(q.tasks[i], r.tasks[i]))
  {
    if !q.closed {
      RemoveAllWorks(q.(closed := true));
    }
  }

  lemma FailedHeadWorks(q: Queue)
    requires !q.closed && q.base < |q.tasks|
    requires q.tasks[q.base].outcome.Some? && q.tasks[q.base].outcome.value.Failed?
    ensures var x := q.tasks[q.base].outcome.value.error;
      Works(q, Fail(q.(turns := q.turns + [FailedTurn(q.base)]), x))
  {
    var m := q.(turns := q.turns + [FailedTurn(q.base)]);
    ClearWorks(m);
    assert Emptied(m.tasks[q.base], Clear(m).tasks[q.base]);
  }

  lemma {:induction false} SettleWorks(q: Queue)
    requires !q.closed && q.applying.Idle?
    ensures Works(q, Settle(q)) && q.turns <= Settle(q).turns
    decreases |q.tasks| - q.base
  {
    if q.base < |q.tasks| && q.tasks[q.base].ready {
      var t := q.tasks[q.base];
      if t.cancelled {
        var m := SkipHead(q);
        SettleWorks(m);
        assert Works(q, m);
        WorksTrans(q, m, Settle(m));
      } else if t.outcome.Some? && t.outcome.value.Failed? {
        FailedHeadWorks(q);
        ClearWorks(q.(turns := q.turns + [FailedTurn(q.base)]));
      }
    }
  }

  lemma ApplyReadyWorks(q: Queue)
    ensures Works(q, ApplyReady(q)) && q.turns <= ApplyReady(q).turns
  {
    if q.applying.Idle? && !q.closed {
      SettleWorks(q);
    }
  }

  lemma {:induction false} PumpWorks(q: Queue)
    ensures Works(q, Pump(q)) && q.turns <= Pump(q).turns
    decreases |q.tasks| - q.next, 1
  {
    if !q.closed && q.active < q.limits.parallel && q.next < |q.tasks| {
      var t := q.tasks[q.next];
      if t.decoder.NoDecoder? || t.cancelled {
        PumpWorks(q.(next := q.next + 1));
      } else if t.decoder.Throwing? {
        ThrowWorks(q);
      } else {
        PumpWorks(Started(q));
        assert Works(q, Started(q));
        WorksTrans(q, Started(q), Pump(Started(q)));
      }
    }
  }

  lemma ThrowWorks(q: Queue)
    requires !q.closed && q.next < |q.tasks| && q.tasks[q.next].decoder.Throwing?
    ensures Works(q, StartNext(q)) && q.turns <= StartNext(q).turns
    decreases |q.tasks| - q.next, 0
  {
    var m := MarkDecoded(Started(q), q.next, Failed(q.tasks[q.next].decoder.error));
    assert Works(q, m);
    ServedWorks(m);
    WorksTrans(q, m, ApplyReady(Pump(m)));
  }

  lemma ServedWorks(m: Queue)
    ensures Works(m, ApplyReady(Pump(m))) && m.turns <= ApplyReady(Pump(m)).turns
    decreases |m.tasks| - m.next, 2
  {
    PumpWorks(m);
    ApplyReadyWorks(Pump(m));
    WorksTrans(m, Pump(m), ApplyReady(Pump(m)));
  }

  // ---------- the queue an event leaves to be served ----------

  /** A reservation of this size passes a limit. */
  predicate Exceeds(q: Queue, bytes: int, heldBytes: nat, heldFrames: nat) {
    q.limits.frames < q.metrics.frames + heldFrames + 1 || q.limits.bytes < q.metrics.bytes + heldBytes + bytes
  }

  /** The error an event brings by itself: of an `apply` whose task is still wanted, or of a frame that does not fit. */
  function ErrorOf(q: Queue, e: Event): Option<int>
    requires Enabled(q, e)
  {
    match e
    case ApplyThrew(x) => Some(x)
    case ApplyRejected(x) => if q.tasks[q.applying.task].cancelled then None else Some(x)
    case EnqueueDecode(_, bytes, _, aborted, heldBytes, heldFrames) =>
      if !aborted && bytes >= 0 && Exceeds(q, bytes, heldBytes, heldFrames) then Some(BUFFER_LIMIT_ERROR) else None
    case _ => None
  }

  /** The event is an enqueueing that is let in. */
  predicate Admits(q: Queue, e: Event) {
    match e
    case EnqueueWork => !q.closed
    case EnqueueDecode(_, bytes, _, aborted, heldBytes, heldFrames) =>
      !q.closed && !aborted && bytes >= 0 && !Exceeds(q, bytes, heldBytes, heldFrames)
    case _ => false
  }

  function Left(q: Queue, e: Event): Queue
    requires Enabled(q, e) && ErrorOf(q, e).None?
  {
    match e
    case EnqueueWork => if q.closed then q else Append(q, NoDecoder, 0, false)
    case EnqueueDecode(decoder, bytes, hasSignal, _, _, _) =>
      if !Admits(q, e) then q else Append(q.(metrics := Reserve(q.metrics, bytes)), decoder, bytes, hasSignal)
    case DecodeDone(i, outcome) => MarkDecoded(q, i, outcome)
    case ApplyReturned => FinishApply(q, q.applying.task)
    case ApplyResolved => FinishApply(q, q.applying.task)
    case ApplyRejected(_) => EndApply(q, q.applying.task)
    case Abort(i) => Cancel(q, i)
    case _ => Step(q, e)
  }

  lemma DrainsWork(q: Queue, m: Queue)
    requires Works(q, m) && q.turns <= m.turns
    ensures Works(q, FinishDrains(m)) && q.turns <= FinishDrains(m).turns
  {
    assert Works(m, FinishDrains(m));
    WorksTrans(q, m, FinishDrains(m));
  }

  lemma ReturnedWorks(q: Queue)
    requires Inv(q) && Enabled(q, ApplyReturned)
    ensures Works(Left(q, ApplyReturned), Step(q, ApplyReturned)) && q.turns <= Step(q, ApplyReturned).turns
  {
    var m := Left(q, ApplyReturned);
    if !q.closed {
      SettleWorks(m);
    }
  }

  /** Whatever follows an event is serving. */
  lemma LeftWorks(q: Queue, e: Event)
    requires Inv(q) && Enabled(q, e) && ErrorOf(q, e).None? && !e.Close?
    ensures Works(Left(q, e), Step(q, e)) && q.turns <= Step(q, e).turns
  {
    var m := Left(q, e);
    match e
    case EnqueueWork => if !q.closed { ServedWorks(m); }
    case EnqueueDecode(_, _, _, _, _, _) => if Admits(q, e) { ServedWorks(m); }
    case DecodeDone(_, _) => ServedWorks(m);
    case ApplyReturned => ReturnedWorks(q);
    case ApplyResolved =>
      ApplyReadyWorks(m);
      DrainsWork(m, ApplyReady(m));
    case ApplyRejected(_) =>
      ApplyReadyWorks(m);
      DrainsWork(m, ApplyReady(m));
    case Abort(_) => ApplyReadyWorks(m);
    case _ =>
  }

  // ---------- errors ----------

  /** An open queue to which an event brings an error reports it and closes, and gives no further turn. */
  lemma ErrorCloses(q: Queue, e: Event)
    requires Inv(q) && Enabled(q, e) && !q.closed && ErrorOf(q, e).Some?
    ensures var r := Step(q, e);
      && r.closed && r.turns == q.turns && r.errors == q.errors + [ErrorOf(q, e).value] && |r.tasks| == |q.tasks|
      && r.applying == if e.EnqueueDecode? then q.applying else Idle
  {
    KeepsApplying(q);
    KeepsApplying(q.(applying := Idle));
    ClearWorks(q);
    ClearWorks(q.(applying := Idle));
  }

  lemma KeepsApplying(q: Queue)
    ensures Clear(q).applying == q.applying
  {
    if !q.closed {
      RemoveAllKeepsApplying(q.(closed := true));
    }
  }

  lemma {:induction false} RemoveAllKeepsApplying(q: Queue)
    ensures RemoveAll(q).applying == q.applying
    decreases |q.tasks| - q.base
  {
    if q.base < |q.tasks| {
      RemoveAllKeepsApplying(DropHead(q));
    }
  }

  /**
   Without such an error nothing is reported and only Close closes the queue, except that a task
   whose decode failed has its turn: then its own error is reported, once, and the queue closed.
   */
  lemma ErrorsExactly(q: Queue, e: Event)
    requires Inv(q) && Enabled(q, e) && (q.closed || ErrorOf(q, e).None?)
    ensures var r := Step(q, e);
      || (r.errors == q.errors && (r.closed <==> q.closed || e.Close?) && NoFailedTurn(q, r))
      || Reports(q, r)
  {
    if q.closed {
      ClosedStep(q, e);
    } else if e.Close? {
      ClearWorks(q);
    } else {
      LeftWorks(q, e);
    }
  }

  ghost predicate NoFailedTurn(q: Queue, r: Queue) {
    |q.turns| <= |r.turns| && forall k :: |q.turns| <= k < |r.turns| ==> !r.turns[k].FailedTurn?
  }

  /** In every run: after an event that brings an error no task has its turn any more, and nothing else is reported. */
  lemma NothingAfterAnError(limits: Limits, es: seq<Event>, e: Event, more: seq<Event>)
    requires ValidLimits(limits) && ValidRun(Initial(limits), es)
    requires var q := Run(Initial(limits), es);
             Enabled(q, e) && !q.closed && ErrorOf(q, e).Some? && ValidRun(Step(q, e), more)
    ensures var q := Run(Initial(limits), es); var r := Run(Step(q, e), more);
      r.closed && r.turns == q.turns && r.errors == q.errors + [ErrorOf(q, e).value]
  {
    var q := Run(Initial(limits), es);
    InitialInv(limits);
    RunKeeps(Initial(limits), es);
    ErrorCloses(q, e);
    StepKeeps(q, e);
    ClosedStaysQuiet(Step(q, e), more);
  }

  // ---------- tasks ----------

  /** A queue that is open lets a task in with what was asked for, or none; a closed one lets none in. */
  lemma EnqueuesExactly(q: Queue, e: Event)
    requires Inv(q) && Enabled(q, e)
    ensures var r := Step(q, e); var n := |q.tasks|;
      && |r.tasks| == (if Admits(q, e) then n + 1 else n)
      && (e.EnqueueWork? && Admits(q, e) ==>
            r.tasks[n].decoder.NoDecoder? && r.tasks[n].bytes == 0 && !r.tasks[n].signal && r.tasks[n].outcome.None?)
      && (e.EnqueueDecode? && Admits(q, e) ==>
            r.tasks[n].decoder == e.decoder && r.tasks[n].bytes == e.bytes && r.tasks[n].signal == e.hasSignal)
  {
    if q.closed {
      ClosedAdmitsNone(q, e);
    } else if e.Close? {
      ClearWorks(q);
    } else if ErrorOf(q, e).Some? {
      ErrorCloses(q, e);
    } else {
      LeftWorks(q, e);
      assert Admits(q, e) ==> SameTask(Left(q, e).tasks[|q.tasks|], Step(q, e).tasks[|q.tasks|], Step(q, e).closed);
    }
  }

  lemma ClosedAdmitsNone(q: Queue, e: Event)
    requires Inv(q) && Enabled(q, e) && q.closed
    ensures |Step(q, e).tasks| == |q.tasks|
  {
  }

  /**
   How an event changes a task: a decode leaves its own outcome, an abort cancels its own task, and closing cancels.
   */
  ghost predicate Changed(q: Queue, e: Event, r: Queue, i: int)
    requires 0 <= i < |q.tasks| && i < |r.tasks|
  {
    var t, u := q.tasks[i], r.tasks[i];
    && u.decoder == t.decoder && u.bytes == t.bytes && u.signal == t.signal
    && (if e.DecodeDone? && e.task == i then u.outcome == Some(e.outcome)
        else u.outcome == t.outcome || (t.decoder.Throwing? && u.outcome == Some(Failed(t.decoder.error))))
    && (e == Abort(i) ==> u.cancelled && u.released)
    && (u.cancelled ==> t.cancelled || e == Abort(i) || (!q.closed && r.closed))
  }

  lemma TasksChangeExactly(q: Queue, e: Event, i: nat)
    requires Inv(q) && Enabled(q, e) && i < |q.tasks|
    ensures i < |Step(q, e).tasks| && Changed(q, e, Step(q, e), i)
  {
    if q.closed {
      ClosedChanges(q, e, i);
    } else if e.Close? || ErrorOf(q, e).Some? {
      ClosingChanges(q, e, i);
    } else if e.Abort? && e.task == i {
      AbortChanges(q, i);
    } else {
      LiveChanges(q, e, i);
      if e.DecodeDone? {
        RecordsOutcome(q, e.task, e.outcome);
      }
    }
  }

  lemma ClosingChanges(q: Queue, e: Event, i: nat)
    requires Inv(q) && Enabled(q, e) && !q.closed && i < |q.tasks| && (e.Close? || ErrorOf(q, e).Some?)
    ensures i < |Step(q, e).tasks| && Changed(q, e, Step(q, e), i)
  {
    ClearWorks(q);
    ClearWorks(q.(applying := Idle));
  }

  lemma AbortChanges(q: Queue, i: nat)
    requires Inv(q) && Enabled(q, Abort(i)) && !q.closed
    ensures i < |Step(q, Abort(i)).tasks| && Changed(q, Abort(i), Step(q, Abort(i)), i)
  {
    LeftWorks(q, Abort(i));
    AbortReleases(q, i);
    assert SameTask(Cancel(q, i).tasks[i], Step(q, Abort(i)).tasks[i], Step(q, Abort(i)).closed);
  }

  /** Serving leaves a task as it is, but for a decoder that throws and for closing. */
  lemma LiveChanges(q: Queue, e: Event, i: nat)
    requires Inv(q) && Enabled(q, e) && !q.closed && i < |q.tasks| && !e.Close? && ErrorOf(q, e).None? && e != Abort(i)
    ensures i < |Step(q, e).tasks|
    ensures var t, u := q.tasks[i], Step(q, e).tasks[i];
      && u.decoder == t.decoder && u.bytes == t.bytes && u.signal == t.signal
      && ((e.DecodeDone? && e.task == i) || u.outcome == t.outcome
          || (t.decoder.Throwing? && u.outcome == Some(Failed(t.decoder.error))))
      && (u.cancelled ==> t.cancelled || Step(q, e).closed)
  {
    LeftWorks(q, e);
    LeavesTask(q, e, i);
    assert SameTask(Left(q, e).tasks[i], Step(q, e).tasks[i], Step(q, e).closed);
  }

  /** The event itself touches a task only to note its outcome, or to take it out of the list. */
  lemma LeavesTask(q: Queue, e: Event, i: nat)
    requires Inv(q) && Enabled(q, e) && !q.closed && i < |q.tasks| && !e.Close? && ErrorOf(q, e).None? && e != Abort(i)
    ensures i < |Left(q, e).tasks|
    ensures var t, u := q.tasks[i], Left(q, e).tasks[i];
      && u.decoder == t.decoder && u.bytes == t.bytes && u.signal == t.signal && u.cancelled == t.cancelled
      && ((e.DecodeDone? && e.task == i) || u.outcome == t.outcome)
  {
  }

  lemma ClosedChanges(q: Queue, e: Event, i: nat)
    requires Inv(q) && Enabled(q, e) && q.closed && i < |q.tasks|
    ensures i < |Step(q, e).tasks| && Changed(q, e, Step(q, e), i)
  {
  }

  lemma RecordsOutcome(q: Queue, i: nat, outcome: Outcome)
    requires Inv(q) && Enabled(q, DecodeDone(i, outcome))
    ensures var r := Step(q, DecodeDone(i, outcome)); i < |r.tasks| && r.tasks[i].outcome == Some(outcome)
  {
    var m := MarkDecoded(q, i, outcome);
    MarkDecodedKeeps(q, i, outcome);
    PumpServes(m);
    PumpedApplies(m, m);
    assert TaskLater(m.tasks[i], Step(q, DecodeDone(i, outcome)).tasks[i]);
  }

  lemma AbortReleases(q: Queue, i: nat)
    requires Inv(q) && Enabled(q, Abort(i))
    ensures var r := Step(q, Abort(i)); i < |r.tasks| && r.tasks[i].cancelled && r.tasks[i].released
  {
    CancelTaskKeeps(q, i);
    ApplyReadyServes(Cancel(q, i));
    assert TaskLater(Cancel(q, i).tasks[i], Step(q, Abort(i)).tasks[i]);
  }

  // ---------- counters ----------

  /** The peaks follow what is reserved, and nothing else. */
  predicate PeaksFollow(q: Queue, e: Event, n: Metrics) {
    var m := q.metrics;
    if e.EnqueueDecode? && Admits(q, e) then
      n.peakFrames == Max(m.peakFrames, m.frames + 1) && n.peakBytes == Max(m.peakBytes, m.bytes + e.bytes)
    else n.peakFrames == m.peakFrames && n.peakBytes == m.peakBytes
  }

  /** So they do, and a drain waits until the list is empty. */
  lemma CountersChangeExactly(q: Queue, e: Event)
    requires Inv(q) && Enabled(q, e)
    ensures var r := Step(q, e);
      && PeaksFollow(q, e, r.metrics) && r.limits == q.limits
      && (r.base < |r.tasks| ==> r.drains == q.drains + if e.Drain? then 1 else 0)
  {
    if q.closed {
      ClosedCounts(q, e);
    } else if e.Close? || ErrorOf(q, e).Some? {
      ClosingCounts(q, e);
    } else {
      LeftWorks(q, e);
      LeavesCounts(q, e);
    }
  }

  lemma ClosedCounts(q: Queue, e: Event)
    requires Inv(q) && Enabled(q, e) && q.closed
    ensures var r := Step(q, e); PeaksFollow(q, e, r.metrics) && r.limits == q.limits && r.base >= |r.tasks|
  {
  }

  lemma ClosingCounts(q: Queue, e: Event)
    requires Inv(q) && Enabled(q, e) && !q.closed && (e.Close? || ErrorOf(q, e).Some?)
    ensures var r := Step(q, e);
      PeaksFollow(q, e, r.metrics) && r.limits == q.limits && (r.base < |r.tasks| ==> r.drains == q.drains)
  {
    ClearWorks(q);
    ClearWorks(q.(applying := Idle));
  }

  lemma LeavesCounts(q: Queue, e: Event)
    requires Inv(q) && Enabled(q, e) && !q.closed && !e.Close? && ErrorOf(q, e).None?
    ensures var m := Left(q, e);
      && PeaksFollow(q, e, m.metrics) && m.limits == q.limits
      && (e.Drain? || m.drains == q.drains) && (e.Drain? && q.base < |q.tasks| ==> m.drains == q.drains + 1)
  {
  }
}
