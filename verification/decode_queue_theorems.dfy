/** What the environment of the decode queue can rely on, over every run. */
module DecodeQueueTheorems {
  import opened DecodeQueueSpec
  import opened DecodeQueueInvariant
  import opened DecodeQueueSafety

  // ---------- what no step takes back ----------

  ghost predicate TaskLater(t: Task, u: Task) {
    && u.decoder == t.decoder && u.bytes == t.bytes && u.signal == t.signal
    && (t.started ==> u.started)
    && (t.outcome.Some? ==> u.outcome == t.outcome)
    && (t.ready ==> u.ready)
    && (t.cancelled ==> u.cancelled)
    && (t.released ==> u.released)
  }

  /** Tasks and turns are only added to, and a closed queue gives no more turns. */
  ghost predicate Later(q: Queue, r: Queue) {
    && |q.tasks| <= |r.tasks|
    && (forall i :: 0 <= i < |q.tasks| ==> TaskLater(q.tasks[i], r.tasks[i]))
    && q.turns <= r.turns
    && q.base <= r.base
    && (q.closed ==> r.closed && r.turns == q.turns && |r.tasks| == |q.tasks|)
    && r.limits == q.limits
  }

  /** A task cancelled before its turn is not applied when the turn comes. */
  ghost predicate Respects(q: Queue, r: Queue) {
    && Later(q, r)
    && forall k {:trigger r.turns[k]} :: |q.turns| <= k < |r.turns| && r.turns[k].Applied? && k < |q.tasks| ==>
          !q.tasks[k].cancelled
  }

  /** At most one `apply` is called, as the last turn, and only when none is in progress. */
  ghost predicate Serves(q: Queue, r: Queue) {
    && Respects(q, r)
    && (q.turns < r.turns ==> q.applying.Idle?)
    && (forall k {:trigger r.turns[k]} :: |q.turns| <= k < |r.turns| - 1 ==> !r.turns[k].Applied?)
    && (q.turns < r.turns && r.turns[|r.turns| - 1].Applied? ==> r.applying == Calling(|r.turns| - 1))
    && (q.turns == r.turns || !r.turns[|r.turns| - 1].Applied? ==> r.applying == q.applying)
  }

  lemma RespectsTrans(q: Queue, m: Queue, r: Queue)
    requires Respects(q, m) && Respects(m, r)
    ensures Respects(q, r)
  {
    forall k {:trigger r.turns[k]} | |q.turns| <= k < |r.turns| && r.turns[k].Applied? && k < |q.tasks|
      ensures !q.tasks[k].cancelled
    {
      assert TaskLater(q.tasks[k], m.tasks[k]);
      if k < |m.turns| { assert m.turns[k] == r.turns[k]; }
    }
    forall i | 0 <= i < |q.tasks| ensures TaskLater(q.tasks[i], r.tasks[i]) {
      assert TaskLater(q.tasks[i], m.tasks[i]) && TaskLater(m.tasks[i], r.tasks[i]);
    }
  }

  lemma ServesTrans(q: Queue, m: Queue, r: Queue)
    requires Serves(q, m) && Serves(m, r)
    ensures Serves(q, r)
  {
    RespectsTrans(q, m, r);
    forall k {:trigger r.turns[k]} | |q.turns| <= k < |r.turns| - 1 ensures !r.turns[k].Applied? {
      if k < |m.turns| { assert m.turns[k] == r.turns[k]; }
    }
  }

  lemma {:induction false} RemoveAllServes(q: Queue)
    ensures Serves(q, RemoveAll(q))
    ensures RemoveAll(q).closed == q.closed && |RemoveAll(q).tasks| == |q.tasks|
    decreases |q.tasks| - q.base
  {
    if q.base < |q.tasks| {
      var m := DropHead(q);
      assert Serves(q, m);
      RemoveAllServes(m);
      ServesTrans(q, m, RemoveAll(m));
    }
  }

  lemma ClearServes(q: Queue)
    ensures Serves(q, Clear(q))
  {
    if !q.closed {
      RemoveAllServes(q.(closed := true));
      ServesTrans(q, q.(closed := true), RemoveAll(q.(closed := true)));
    }
  }

  lemma SkipServes(q: Queue)
    requires Core(q) && q.applying.Idle? && q.base < |q.tasks| && q.tasks[q.base].cancelled && q.tasks[q.base].ready
    ensures var m := SkipHead(q);
      Core(m) && Serves(q, m)
  {
    RemoveHeadKeeps(q);
    assert q.tasks[q.base].released;
  }

  lemma FailedTurnServes(q: Queue, error: int)
    requires !q.closed && q.applying.Idle?
    ensures Serves(q, Fail(q.(turns := q.turns + [FailedTurn(q.base)]), error))
  {
    var m := q.(turns := q.turns + [FailedTurn(q.base)]);
    assert Serves(q, m);
    ClearServes(m);
    ServesTrans(q, m, Clear(m));
  }

  lemma {:induction false} SettleServes(q: Queue)
    requires Core(q) && q.applying.Idle?
    ensures Serves(q, Settle(q))
    decreases |q.tasks| - q.base
  {
    if q.base < |q.tasks| && q.tasks[q.base].ready {
      var t := q.tasks[q.base];
      if t.cancelled {
        SkipServes(q);
        var m := SkipHead(q);
        SettleServes(m);
        ServesTrans(q, m, Settle(m));
      } else if t.outcome.Some? && t.outcome.value.Failed? {
        FailedTurnServes(q, t.outcome.value.error);
      }
    }
  }

  lemma ApplyReadyServes(q: Queue)
    requires Core(q)
    ensures Serves(q, ApplyReady(q))
  {
    if q.applying.Idle? && !q.closed {
      SettleServes(q);
    }
  }

  lemma StartServes(q: Queue, i: nat, next: nat)
    requires i < |q.tasks|
    ensures Serves(q, MarkStarted(q.(next := next), i))
  {
  }

  lemma DecodedServes(q: Queue, i: nat, outcome: Outcome)
    requires i < |q.tasks| && q.tasks[i].InFlight()
    ensures Serves(q, MarkDecoded(q, i, outcome))
  {
  }

  lemma {:induction false} PumpServes(q: Queue)
    requires Core(q)
    requires q.base == |q.tasks| ==> q.drains == 0
    ensures Serves(q, Pump(q))
    decreases |q.tasks| - q.next, 1
  {
    if !Pumped(q) {
      var i := q.next;
      var moved := q.(next := i + 1);
      if q.tasks[i].decoder.NoDecoder? || q.tasks[i].cancelled {
        PumpServes(moved);
        ServesTrans(q, moved, Pump(moved));
      } else {
        StartDecodeServes(q);
      }
    }
  }

  lemma StartDecodeServes(q: Queue)
    requires Core(q) && !Pumped(q)
    requires q.base == |q.tasks| ==> q.drains == 0
    requires !q.tasks[q.next].decoder.NoDecoder? && !q.tasks[q.next].cancelled
    ensures Serves(q, Pump(q))
    decreases |q.tasks| - q.next, 0
  {
    StartedIs(q);
    PumpStarts(q);
    if q.tasks[q.next].decoder.Throwing? {
      ThrowingServes(q, Started(q), q.next);
    } else {
      PromisingServes(q, Started(q));
    }
  }

  lemma StartedIs(q: Queue)
    requires Core(q) && !Pumped(q)
    requires !q.tasks[q.next].decoder.NoDecoder? && !q.tasks[q.next].cancelled
    ensures var s := Started(q);
      && Core(s) && Serves(q, s) && |s.tasks| == |q.tasks| && s.next == q.next + 1 && s.base == q.base
         && s.drains == q.drains
      && s.tasks[q.next].InFlight() && s.tasks[q.next].decoder == q.tasks[q.next].decoder
  {
    MarkStartedKeeps(q);
    StartServes(q, q.next, q.next + 1);
  }

  lemma PumpStarts(q: Queue)
    requires !Pumped(q) && q.next < |q.tasks|
    requires !q.tasks[q.next].decoder.NoDecoder? && !q.tasks[q.next].cancelled
    ensures var s, decoder := Started(q), q.tasks[q.next].decoder;
      Pump(q) == if decoder.Throwing? then ApplyReady(Pump(MarkDecoded(s, q.next, Failed(decoder.error)))) else Pump(s)
  {
  }

  lemma PromisingServes(q: Queue, started: Queue)
    requires Serves(q, started) && Core(started)
    requires started.base == |started.tasks| ==> started.drains == 0
    ensures Serves(q, Pump(started))
    decreases |started.tasks| - started.next, 2
  {
    PumpServes(started);
    ServesTrans(q, started, Pump(started));
  }

  lemma ThrowingServes(q: Queue, started: Queue, i: nat)
    requires Serves(q, started) && Core(started)
    requires i < started.next && started.tasks[i].InFlight() && started.tasks[i].decoder.Throwing?
    requires started.base == |started.tasks| ==> started.drains == 0
    ensures Serves(q, ApplyReady(Pump(MarkDecoded(started, i, Failed(started.tasks[i].decoder.error)))))
    decreases |started.tasks| - started.next, 2
  {
    var outcome := Failed(started.tasks[i].decoder.error);
    var marked := MarkDecoded(started, i, outcome);
    MarkDecodedKeeps(started, i, outcome);
    DecodedServes(started, i, outcome);
    ServesTrans(q, started, marked);
    PumpServes(marked);
    PumpedApplies(q, marked);
  }

  lemma PumpedApplies(q: Queue, m: Queue)
    requires Serves(q, m) && Core(m) && Serves(m, Pump(m))
    requires m.base == |m.tasks| ==> m.drains == 0
    ensures Serves(q, ApplyReady(Pump(m)))
  {
    PumpKeeps(m);
    ApplyReadyServes(Pump(m));
    ServesTrans(q, m, Pump(m));
    ServesTrans(q, Pump(m), ApplyReady(Pump(m)));
  }

  /** The state once the event itself is noted: an apply that ended is no longer in progress. */
  function Noted(q: Queue, e: Event): Queue {
    match e
    case ApplyReturned => q.(applying := Idle)
    case ApplyThrew(_) => q.(applying := Idle)
    case ApplyResolved => q.(applying := Idle)
    case ApplyRejected(_) => q.(applying := Idle)
    case ApplyPromised => if q.applying.Calling? then q.(applying := Awaiting(q.applying.task)) else q
    case _ => q
  }

  lemma EnqueueServes(q: Queue, decoder: Decoder, bytes: nat, hasSignal: bool)
    requires Inv(q) && !q.closed
    requires decoder.NoDecoder? ==> bytes == 0
    requires !decoder.NoDecoder? ==> !OverLimit(q, bytes, 0, 0)
    ensures var m := if decoder.NoDecoder? then q.metrics else Reserve(q.metrics, bytes);
      Serves(q, Enqueue(q.(metrics := m), decoder, bytes, hasSignal, false))
  {
    AppendKeeps(q, decoder, bytes, hasSignal);
    var m := if decoder.NoDecoder? then q.metrics else Reserve(q.metrics, bytes);
    var a := Append(q.(metrics := m), decoder, bytes, hasSignal);
    PumpServes(a);
    PumpedApplies(q, a);
  }

  lemma EnqueueDecodeServes(q: Queue, e: Event)
    requires Inv(q) && Enabled(q, e) && e.EnqueueDecode?
    ensures Serves(q, Step(q, e))
  {
    if !q.closed && !e.aborted && e.bytes >= 0 {
      if OverLimit(q, e.bytes, e.heldBytes, e.heldFrames) {
        ClearServes(q);
      } else {
        EnqueueServes(q, e.decoder, e.bytes, e.hasSignal);
      }
    }
  }

  lemma FinishApplyServes(q: Queue)
    requires !q.applying.Idle? && q.applying.task < |q.tasks|
    ensures Serves(q.(applying := Idle), FinishApply(q, q.applying.task))
  {
  }

  lemma ReturnedServes(q: Queue)
    requires Inv(q) && Enabled(q, ApplyReturned)
    ensures Serves(Noted(q, ApplyReturned), Step(q, ApplyReturned))
  {
    var f := FinishApply(q, q.applying.task);
    assert Core(f) && f.applying.Idle? by {
      FinishApplyKeeps(q);
    }
    FinishApplyServes(q);
    SettleServes(f);
    ServesTrans(Noted(q, ApplyReturned), f, Settle(f));
  }

  lemma ResolvedServes(q: Queue)
    requires Inv(q) && Enabled(q, ApplyResolved)
    ensures Serves(Noted(q, ApplyResolved), Step(q, ApplyResolved))
  {
    var f := FinishApply(q, q.applying.task);
    assert Core(f) && f.applying.Idle? by {
      FinishApplyKeeps(q);
    }
    FinishApplyServes(q);
    ApplyReadyServes(f);
    ServesTrans(Noted(q, ApplyResolved), f, ApplyReady(f));
    DrainsServe(Noted(q, ApplyResolved), ApplyReady(f));
  }

  lemma DrainsServe(q: Queue, r: Queue)
    requires Serves(q, r)
    ensures Serves(q, FinishDrains(r))
  {
  }

  lemma RejectedServes(q: Queue, e: Event)
    requires Inv(q) && Enabled(q, e) && e.ApplyRejected?
    ensures Serves(Noted(q, e), Step(q, e))
  {
    var i := q.applying.task;
    var idle := Noted(q, e);
    if q.tasks[i].cancelled {
      CancelledRejectionServes(q);
    } else {
      ClearServes(idle);
    }
  }

  lemma CancelledRejectionServes(q: Queue)
    requires Inv(q) && !q.applying.Idle? && q.tasks[q.applying.task].cancelled
    ensures Serves(q.(applying := Idle), Rejected(q, q.applying.task, 0))
  {
    var i := q.applying.task;
    var idle := q.(applying := Idle);
    var removed := if q.base == i then RemoveHead(idle) else idle;
    FinishApplyKeeps(q);
    assert FinishApply(q, i) == removed by { assert TaskOk(q.tasks[i]); }
    assert Serves(idle, removed);
    ApplyReadyServes(removed);
    ServesTrans(idle, removed, ApplyReady(removed));
    DrainsServe(idle, ApplyReady(removed));
  }

  lemma CancelServes(q: Queue, i: nat)
    requires i < |q.tasks|
    ensures Serves(q, Cancel(q, i))
  {
  }

  lemma AbortServes(q: Queue, i: nat)
    requires Inv(q) && Enabled(q, Abort(i))
    ensures Serves(q, Step(q, Abort(i)))
  {
    CancelTaskKeeps(q, i);
    CancelServes(q, i);
    ApplyReadyServes(Cancel(q, i));
    ServesTrans(q, Cancel(q, i), ApplyReady(Cancel(q, i)));
  }

  lemma DecodeDoneServes(q: Queue, i: nat, outcome: Outcome)
    requires Inv(q) && Enabled(q, DecodeDone(i, outcome))
    ensures Serves(q, Step(q, DecodeDone(i, outcome)))
  {
    MarkDecodedKeeps(q, i, outcome);
    DecodedServes(q, i, outcome);
    PumpServes(MarkDecoded(q, i, outcome));
    PumpedApplies(q, MarkDecoded(q, i, outcome));
  }

  lemma QuietServes(q: Queue, e: Event)
    requires Enabled(q, e) && (e.ApplyPromised? || e.Drain?)
    ensures Serves(Noted(q, e), Step(q, e))
  {
  }

  /**
   Applies never overlap: a step calls at most one `apply`, only when none is in progress any
   more, and never that of a task cancelled before.  Nothing once written is taken back.
   */
  lemma StepServes(q: Queue, e: Event)
    requires Inv(q) && Enabled(q, e)
    ensures Serves(Noted(q, e), Step(q, e))
  {
    match e
    case EnqueueWork => if !q.closed { EnqueueServes(q, NoDecoder, 0, false); }
    case EnqueueDecode(_, _, _, _, _, _) => EnqueueDecodeServes(q, e);
    case DecodeDone(i, outcome) => DecodeDoneServes(q, i, outcome);
    case ApplyReturned => ReturnedServes(q);
    case ApplyPromised => QuietServes(q, e);
    case ApplyThrew(_) => ClearServes(Noted(q, e));
    case ApplyResolved => ResolvedServes(q);
    case ApplyRejected(_) => RejectedServes(q, e);
    case Abort(i) => AbortServes(q, i);
    case Close => ClearServes(q);
    case Drain => QuietServes(q, e);
  }

  // ---------- the loop of pump ----------

  ghost predicate InRange(q: Queue) {
    q.base <= q.next <= |q.tasks|
  }

  lemma {:induction false} RemoveAllRests(q: Queue)
    requires InRange(q)
    ensures var r := RemoveAll(q); InRange(r) && r.closed == q.closed && |r.tasks| == |q.tasks| && r.next >= q.next
    decreases |q.tasks| - q.base
  {
    if q.base < |q.tasks| {
      RemoveAllRests(DropHead(q));
    }
  }

  lemma ClearRests(q: Queue)
    requires InRange(q)
    ensures var r := Clear(q); InRange(r) && r.closed && |r.tasks| == |q.tasks| && r.next >= q.next
  {
    if !q.closed {
      RemoveAllRests(q.(closed := true));
    }
  }

  lemma {:induction false} SettleRests(q: Queue)
    requires InRange(q)
    ensures var r := Settle(q);
      InRange(r) && |r.tasks| == |q.tasks| && r.next >= q.next && (Pumped(q) ==> Pumped(r))
    decreases |q.tasks| - q.base
  {
    if q.base < |q.tasks| && q.tasks[q.base].ready {
      if q.tasks[q.base].cancelled {
        SettleRests(SkipHead(q));
      } else {
        ClearRests(q.(turns := q.turns + [FailedTurn(q.base)]));
      }
    }
  }

  lemma {:induction false} PumpRests(q: Queue)
    requires InRange(q)
    ensures var r := Pump(q);
      InRange(r) && |r.tasks| == |q.tasks| && r.next >= q.next && Pumped(r)
    decreases |q.tasks| - q.next
  {
    if !Pumped(q) {
      var i := q.next;
      var t := q.tasks[i];
      if t.decoder.NoDecoder? || t.cancelled {
        PumpRests(q.(next := i + 1));
      } else {
        var started := MarkStarted(q.(next := i + 1), i);
        if t.decoder.Throwing? {
          var marked := MarkDecoded(started, i, Failed(t.decoder.error));
          PumpRests(marked);
          SettleRests(Pump(marked));
        } else {
          PumpRests(started);
        }
      }
    }
  }

  /** After a decoder that threw there is nothing left to start. */
  lemma ThrowRests(q: Queue)
    requires InRange(q) && !Pumped(q) && q.tasks[q.next].decoder.Throwing?
    ensures var r := StartNext(q); Pumped(r) && |r.tasks| == |q.tasks| && r.next > q.next
  {
    var marked := MarkDecoded(Started(q), q.next, Failed(q.tasks[q.next].decoder.error));
    PumpRests(marked);
    SettleRests(Pump(marked));
  }

  lemma PumpedIsDone(q: Queue)
    requires Pumped(q)
    ensures Pump(q) == q
  {
  }

  /** Going round the loop once more after a decoder that threw changes nothing. */
  lemma PumpContinues(q: Queue)
    requires InRange(q) && !Pumped(q)
    requires !q.tasks[q.next].decoder.NoDecoder? && !q.tasks[q.next].cancelled
    ensures Pump(StartNext(q)) == Pump(q)
    ensures |StartNext(q).tasks| == |q.tasks| && StartNext(q).next > q.next
  {
    if q.tasks[q.next].decoder.Throwing? {
      ThrowRests(q);
      PumpedIsDone(StartNext(q));
    }
  }

  // ---------- theorems over runs ----------

  lemma NotedChangesNothingElse(q: Queue, e: Event, r: Queue)
    requires Respects(Noted(q, e), r)
    ensures Respects(q, r)
  {
  }

  /** Over a run: tasks, turns and closedness only grow, and what was cancelled in time is never applied. */
  lemma {:induction false} RunRespects(q: Queue, es: seq<Event>)
    requires Inv(q) && ValidRun(q, es)
    ensures Respects(q, Run(q, es))
    decreases |es|
  {
    if es != [] {
      var m := Step(q, es[0]);
      StepKeeps(q, es[0]);
      StepServes(q, es[0]);
      NotedChangesNothingElse(q, es[0], m);
      RunRespects(m, es[1..]);
      RespectsTrans(q, m, Run(m, es[1..]));
    }
  }

  /**
   In every run, turn number k belongs to task number k: applies happen in enqueue order, each
   task at most once, with the value its own decoder produced; a task is passed over only if it
   was cancelled; after a failed task there is no further turn.
   */
  lemma AppliesInOrder(limits: Limits, es: seq<Event>)
    requires ValidLimits(limits) && ValidRun(Initial(limits), es)
    ensures var q := Run(Initial(limits), es);
      && |q.turns| <= |q.tasks|
      && (forall k :: 0 <= k < |q.turns| ==> q.turns[k].task == k)
      && (forall k :: 0 <= k < |q.turns| && q.turns[k].Applied? && !q.tasks[k].decoder.NoDecoder? ==>
            q.tasks[k].outcome.Some? && q.tasks[k].outcome.value.Decoded? && q.turns[k].outcome == q.tasks[k].outcome)
      && (forall k :: 0 <= k < |q.turns| && q.turns[k].Skipped? ==> q.tasks[k].cancelled)
      && (forall k :: 0 <= k < |q.turns| && q.turns[k].FailedTurn? ==> k == |q.turns| - 1 && q.closed)
      && |q.errors| <= 1
  {
    InitialInv(limits);
    RunKeeps(Initial(limits), es);
    var q := Run(Initial(limits), es);
    forall k | 0 <= k < |q.turns| ensures TurnOk(q.turns[k], k, q.tasks[k], k == |q.turns| - 1) {
    }
  }

  /** A task cancelled before its turn, or enqueued in a queue that closes before its turn, is never applied. */
  lemma CancelledIsNeverApplied(q: Queue, es: seq<Event>, k: nat)
    requires Inv(q) && ValidRun(q, es)
    requires |q.turns| <= k < |q.tasks| && (q.tasks[k].cancelled || q.closed)
    ensures var r := Run(q, es); k < |r.turns| ==> !r.turns[k].Applied?
  {
    RunRespects(q, es);
  }

  /** After close nothing is applied, started to be decoded, or reported any more. */
  lemma {:induction false} ClosedStaysQuiet(q: Queue, es: seq<Event>)
    requires Inv(q) && ValidRun(q, es) && q.closed
    ensures var r := Run(q, es);
      && r.closed && r.turns == q.turns && r.errors == q.errors
      && r.metrics.decodes == q.metrics.decodes && r.metrics.frames == r.metrics.bytes == 0
    decreases |es|
  {
    ClosedIsEmpty(q);
    if es != [] {
      StepKeeps(q, es[0]);
      ClosedStep(q, es[0]);
      ClosedStaysQuiet(Step(q, es[0]), es[1..]);
    }
  }

  lemma ClosedStep(q: Queue, e: Event)
    requires Inv(q) && Enabled(q, e) && q.closed
    ensures var r := Step(q, e);
      r.closed && r.turns == q.turns && r.errors == q.errors && r.metrics.decodes == q.metrics.decodes
  {
  }

  /** A closed queue holds no reservation and no unresolved completion or drain. */
  lemma ClosedIsEmpty(q: Queue)
    requires Inv(q) && q.closed
    ensures q.metrics.frames == 0 && q.metrics.bytes == 0 && q.drains == 0
    ensures forall i :: 0 <= i < |q.tasks| ==> q.tasks[i].released
  {
    SumZero(q.tasks, FrameWeight);
    SumZero(q.tasks, ByteWeight);
  }

  lemma {:induction false} SomeInFlight(ts: seq<Task>)
    requires Sum(ts, FlightWeight) > 0
    ensures exists i :: 0 <= i < |ts| && ts[i].InFlight()
  {
    var n := |ts| - 1;
    if ts[n].InFlight() {
    } else {
      SomeInFlight(ts[..n]);
      var i :| 0 <= i < n && ts[..n][i].InFlight();
      assert ts[i].InFlight();
    }
  }

  /** No lost wake-up: a queue that is not empty is waiting for an apply or a decode that is under way. */
  lemma NeverStuck(q: Queue)
    requires Inv(q) && q.base < |q.tasks| && q.applying.Idle?
    ensures exists i :: 0 <= i < |q.tasks| && q.tasks[i].InFlight()
  {
    if q.active >= q.limits.parallel {
      SomeInFlight(q.tasks);
    } else {
      assert q.next == |q.tasks|;
      assert Ready(q.tasks[q.base]) && q.tasks[q.base].InFlight();
    }
  }

  /**
   When no decode is in flight and no apply in progress, every completion is resolved, every
   reservation given back and every drain finished; and if the queue was never closed, every
   task that was not cancelled has been applied.
   */
  lemma QuiescentIsDone(q: Queue)
    requires Inv(q) && q.applying.Idle?
    requires forall i :: 0 <= i < |q.tasks| ==> !q.tasks[i].InFlight()
    ensures q.base == |q.tasks| && q.drains == 0
    ensures q.metrics.frames == 0 && q.metrics.bytes == 0 && q.active == 0
    ensures forall i :: 0 <= i < |q.tasks| ==> q.tasks[i].released
    ensures !q.closed ==> |q.turns| == |q.tasks|
    ensures !q.closed ==> forall i :: 0 <= i < |q.tasks| && !q.tasks[i].cancelled ==>
            q.turns[i].Applied? && q.turns[i].task == i
  {
    if q.base < |q.tasks| {
      NeverStuck(q);
      assert false;
    }
    SumZero(q.tasks, FrameWeight);
    SumZero(q.tasks, ByteWeight);
    SumZero(q.tasks, FlightWeight);
    if !q.closed {
      forall i | 0 <= i < |q.tasks| && !q.tasks[i].cancelled ensures q.turns[i].Applied? && q.turns[i].task == i {
        assert TurnOk(q.turns[i], i, q.tasks[i], i == |q.turns| - 1);
      }
    }
  }

  /** The reservations are those of the unreleased decode tasks, and never exceed what admission allows. */
  lemma ReservationsAreConserved(limits: Limits, es: seq<Event>)
    requires ValidLimits(limits) && ValidRun(Initial(limits), es)
    ensures var q := Run(Initial(limits), es);
      && q.metrics.frames == Sum(q.tasks, FrameWeight) <= limits.frames
      && q.metrics.bytes == Sum(q.tasks, ByteWeight) <= limits.bytes
      && q.metrics.decodes == Sum(q.tasks, StartWeight)
      && q.active == Sum(q.tasks, FlightWeight) <= limits.parallel
      && (q.base == |q.tasks| ==> q.drains == 0)
      && q.base <= |q.tasks|
      && (forall i :: 0 <= i < q.base ==> q.tasks[i].released)
      && (forall i :: q.base <= i < |q.tasks| ==> (q.tasks[i].released <==> q.tasks[i].cancelled))
  {
    InitialInv(limits);
    RunKeeps(Initial(limits), es);
    RunRespects(Initial(limits), es);
  }
}
