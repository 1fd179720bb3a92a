/** Every event keeps the invariant of the decode queue, in every run. */
module DecodeQueueSafety {
  import opened Wrappers
  import opened DecodeQueueSpec
  import opened DecodeQueueInvariant

  lemma AppendKeeps(q: Queue, decoder: Decoder, bytes: nat, hasSignal: bool)
    requires Core(q) && !q.closed
    requires decoder.NoDecoder? ==> bytes == 0
    requires !decoder.NoDecoder? ==> !OverLimit(q, bytes, 0, 0)
    ensures var m := if decoder.NoDecoder? then q.metrics else Reserve(q.metrics, bytes);
      Core(Append(q.(metrics := m), decoder, bytes, hasSignal))
  {
    var t := Task(decoder, bytes, hasSignal, false, None, decoder.NoDecoder?, false, false);
    SumAppend(q.tasks, FrameWeight, t);
    SumAppend(q.tasks, ByteWeight, t);
    SumAppend(q.tasks, FlightWeight, t);
    SumAppend(q.tasks, StartWeight, t);
  }

  lemma EnqueueKeeps(q: Queue, decoder: Decoder, bytes: nat, hasSignal: bool)
    requires Inv(q) && !q.closed
    requires decoder.NoDecoder? ==> bytes == 0
    requires !decoder.NoDecoder? ==> !OverLimit(q, bytes, 0, 0)
    ensures var m := if decoder.NoDecoder? then q.metrics else Reserve(q.metrics, bytes);
      Inv(Enqueue(q.(metrics := m), decoder, bytes, hasSignal, false))
  {
    AppendKeeps(q, decoder, bytes, hasSignal);
    var m := if decoder.NoDecoder? then q.metrics else Reserve(q.metrics, bytes);
    var a := Append(q.(metrics := m), decoder, bytes, hasSignal);
    PumpedApplyKeeps(a);
  }

  /** The task being applied leaves the list, if it is still in it. */
  lemma FinishApplyKeeps(q: Queue)
    requires Inv(q) && !q.applying.Idle?
    ensures var r := FinishApply(q, q.applying.task); Core(r) && r.applying.Idle? && Pumped(r)
    ensures q.closed ==> Settled(FinishApply(q, q.applying.task))
  {
    var i := q.applying.task;
    assert TurnOk(q.turns[i], i, q.tasks[i], true);
    if q.closed {
      ReleaseKeeps(q.(applying := Idle), i);
    } else {
      RemoveHeadKeeps(q);
      ReleaseKeeps(RemoveHead(q.(applying := Idle)), i);
    }
  }

  lemma CancelTaskKeeps(q: Queue, i: nat)
    requires Core(q) && i < |q.tasks|
    ensures var r := Cancel(q, i);
      Core(r) && (Pumped(q) ==> Pumped(r)) && (Settled(q) && (!q.applying.Idle? || q.closed) ==> Settled(r))
  {
    var t := q.tasks[i].(cancelled := true, ready := true);
    CancelKeeps(q, i, true);
    ReleaseKeeps(q.(tasks := q.tasks[i := t]), i);
    TurnsStay(q.turns, q.tasks, i, t);
    TurnsStay(q.turns, q.tasks[i := t], i, t.(released := true));
  }

  lemma AbortKeeps(q: Queue, i: nat)
    requires Inv(q) && Enabled(q, Abort(i))
    ensures Inv(Step(q, Abort(i)))
  {
    CancelTaskKeeps(q, i);
    ApplyReadyKeeps(Cancel(q, i));
  }

  lemma RejectedKeeps(q: Queue, error: int)
    requires Inv(q) && !q.applying.Idle?
    ensures Inv(Rejected(q, q.applying.task, error))
  {
    var i := q.applying.task;
    var idle := q.(applying := Idle);
    if q.tasks[i].cancelled {
      FinishApplyKeeps(q);
      var removed := if q.base == i then RemoveHead(idle) else idle;
      assert q.tasks[i].released;
      assert FinishApply(q, i) == removed;
      ApplyReadyKeeps(removed);
    } else {
      ClearKeeps(idle);
    }
  }

  lemma DecodeDoneKeeps(q: Queue, i: nat, outcome: Outcome)
    requires Inv(q) && Enabled(q, DecodeDone(i, outcome))
    ensures Inv(Step(q, DecodeDone(i, outcome)))
  {
    var m := MarkDecoded(q, i, outcome);
    MarkDecodedKeeps(q, i, outcome);
    PumpedApplyKeeps(m);
  }

  lemma EnqueueDecodeKeeps(q: Queue, e: Event)
    requires Inv(q) && Enabled(q, e) && e.EnqueueDecode?
    ensures Inv(Step(q, e))
  {
    if !q.closed && !e.aborted && e.bytes >= 0 {
      if OverLimit(q, e.bytes, e.heldBytes, e.heldFrames) {
        ClearKeeps(q);
      } else {
        EnqueueKeeps(q, e.decoder, e.bytes, e.hasSignal);
      }
    }
  }

  lemma AppliedKeeps(q: Queue, e: Event)
    requires Inv(q) && Enabled(q, e) && (e.ApplyReturned? || e.ApplyResolved?)
    ensures Inv(Step(q, e))
  {
    var f := FinishApply(q, q.applying.task);
    FinishApplyKeeps(q);
    SettleKeeps(f);
    ApplyReadyKeeps(f);
  }

  lemma ClosingKeeps(q: Queue, e: Event)
    requires Inv(q) && Enabled(q, e) && (e.ApplyThrew? || e.Close?)
    ensures Inv(Step(q, e))
  {
    ClearKeeps(q);
    ClearKeeps(q.(applying := Idle));
  }

  /** Every event keeps the invariant: pointers, counters, limits, turn order, and no lost wake-up. */
  lemma StepKeeps(q: Queue, e: Event)
    requires Inv(q) && Enabled(q, e)
    ensures Inv(Step(q, e))
  {
    match e
    case EnqueueWork => if !q.closed { EnqueueKeeps(q, NoDecoder, 0, false); }
    case EnqueueDecode(_, _, _, _, _, _) => EnqueueDecodeKeeps(q, e);
    case DecodeDone(i, outcome) => DecodeDoneKeeps(q, i, outcome);
    case ApplyReturned => AppliedKeeps(q, e);
    case ApplyPromised =>
    case ApplyThrew(_) => ClosingKeeps(q, e);
    case ApplyResolved => AppliedKeeps(q, e);
    case ApplyRejected(error) => RejectedKeeps(q, error);
    case Abort(i) => AbortKeeps(q, i);
    case Close => ClosingKeeps(q, e);
    case Drain =>
  }

  // ---------- runs ----------

  /** The events are enabled one after the other. */
  ghost predicate ValidRun(q: Queue, es: seq<Event>)
    decreases |es|
  {
    es == [] || (Enabled(q, es[0]) && ValidRun(Step(q, es[0]), es[1..]))
  }

  ghost function Run(q: Queue, es: seq<Event>): Queue
    requires ValidRun(q, es)
    decreases |es|
  {
    if es == [] then q else Run(Step(q, es[0]), es[1..])
  }

  lemma {:induction false} RunKeeps(q: Queue, es: seq<Event>)
    requires Inv(q) && ValidRun(q, es)
    ensures Inv(Run(q, es))
    decreases |es|
  {
    if es != [] {
      StepKeeps(q, es[0]);
      RunKeeps(Step(q, es[0]), es[1..]);
    }
  }

  lemma InitialInv(limits: Limits)
    requires ValidLimits(limits)
    ensures Inv(Initial(limits))
  {
  }

  lemma {:induction false} RunAppend(q: Queue, es: seq<Event>, e: Event)
    requires ValidRun(q, es) && Enabled(Run(q, es), e)
    ensures ValidRun(q, es + [e]) && Run(q, es + [e]) == Step(Run(q, es), e)
    decreases |es|
  {
    if es != [] {
      assert (es + [e])[1..] == es[1..] + [e];
      RunAppend(Step(q, es[0]), es[1..], e);
    } else {
      assert es + [e] == [e];
      assert [e][1..] == [];
    }
  }

  /** The states a queue can be in. */
  ghost predicate Reachable(limits: Limits, q: Queue) {
    exists es: seq<Event> :: ValidRun(Initial(limits), es) && Run(Initial(limits), es) == q
  }

  lemma ReachableInitially(limits: Limits)
    ensures Reachable(limits, Initial(limits))
  {
    assert ValidRun(Initial(limits), []) && Run(Initial(limits), []) == Initial(limits);
  }

  lemma ReachableStep(limits: Limits, q: Queue, e: Event)
    requires Reachable(limits, q) && Enabled(q, e)
    ensures Reachable(limits, Step(q, e))
  {
    var es: seq<Event> :| ValidRun(Initial(limits), es) && Run(Initial(limits), es) == q;
    RunAppend(Initial(limits), es, e);
    assert Run(Initial(limits), es + [e]) == Step(q, e);
  }

  /** The invariant holds of every state a queue can be in. */
  lemma ReachableKeeps(limits: Limits, q: Queue)
    requires ValidLimits(limits) && Reachable(limits, q)
    ensures Inv(q)
  {
    var es: seq<Event> :| ValidRun(Initial(limits), es) && Run(Initial(limits), es) == q;
    InitialInv(limits);
    RunKeeps(Initial(limits), es);
  }
}
