/**
 The invariant of the decode queue, and what each of its procedures keeps of it.

 `Core` holds at every moment, also inside a step: where the two list positions may stand, that
 the counters are the sums over the tasks and stay below the limits, and that turn number k belongs
 to task number k.  `Inv` adds what holds whenever the queue is back in its environment's hands: no
 decode that could start is left waiting, no head that could have its turn is, and nobody waits for
 an empty list to drain.  Each procedure of the machine has a lemma that says which of these it
 keeps and which it establishes.
 */
module DecodeQueueInvariant {
  import opened Wrappers
  import opened DecodeQueueSpec

  // ---------- sums ----------

  lemma {:induction false} SumUpdate(ts: seq<Task>, weight: Task -> int, i: nat, t: Task)
    requires i < |ts|
    ensures Sum(ts[i := t], weight) == Sum(ts, weight) - weight(ts[i]) + weight(t)
  {
    var n := |ts| - 1;
    if i == n {
      assert ts[i := t][..n] == ts[..n];
    } else {
      assert ts[i := t][..n] == ts[..n][i := t];
      SumUpdate(ts[..n], weight, i, t);
    }
  }

  lemma SumAppend(ts: seq<Task>, weight: Task -> int, t: Task)
    ensures Sum(ts + [t], weight) == Sum(ts, weight) + weight(t)
  {
    assert (ts + [t])[..|ts|] == ts;
  }

  /** Non-negative weights: the sum is at least any one of them. */
  lemma {:induction false} SumBounds(ts: seq<Task>, weight: Task -> int, i: nat)
    requires i < |ts|
    requires forall j :: 0 <= j < |ts| ==> weight(ts[j]) >= 0
    ensures Sum(ts, weight) >= weight(ts[i])
    ensures Sum(ts, weight) >= 0
  {
    var n := |ts| - 1;
    assert forall j :: 0 <= j < n ==> ts[..n][j] == ts[j];
    if n > 0 {
      SumBounds(ts[..n], weight, if i == n then 0 else i);
    }
  }

  lemma {:induction false} SumZero(ts: seq<Task>, weight: Task -> int)
    requires forall j :: 0 <= j < |ts| ==> weight(ts[j]) == 0
    ensures Sum(ts, weight) == 0
  {
    if ts != [] {
      var n := |ts| - 1;
      assert forall j :: 0 <= j < n ==> ts[..n][j] == ts[j];
      SumZero(ts[..n], weight);
    }
  }

  // ---------- the invariant ----------

  ghost predicate TaskOk(t: Task) {
    && (t.outcome.Some? ==> t.started)
    && (t.started ==> !t.decoder.NoDecoder?)
    && (t.cancelled ==> t.released)
  }

  ghost predicate Ready(t: Task) {
    t.ready <==> t.decoder.NoDecoder? || t.outcome.Some? || t.cancelled
  }

  /** Where the two pointers of the list may stand. */
  ghost predicate Pointers(ts: seq<Task>, base: nat, next: nat) {
    && base <= next <= |ts|
    && (forall i :: 0 <= i < |ts| ==> TaskOk(ts[i]))
    && (forall i :: 0 <= i < base ==> ts[i].released)
    && (forall i :: base <= i < |ts| ==> Ready(ts[i]) && (ts[i].released ==> ts[i].cancelled))
    && (forall i :: next <= i < |ts| ==> !ts[i].started)
    && (forall i :: 0 <= i < next ==> ts[i].started || ts[i].cancelled || ts[i].decoder.NoDecoder?)
  }

  /** The counters say what the tasks say, and stay below the limits. */
  ghost predicate Conserved(ts: seq<Task>, m: Metrics, active: int, l: Limits) {
    && m.frames == Sum(ts, FrameWeight)
    && m.bytes == Sum(ts, ByteWeight)
    && m.decodes == Sum(ts, StartWeight)
    && active == Sum(ts, FlightWeight)
    && ValidLimits(l)
    && active <= l.parallel
    && m.frames <= m.peakFrames <= l.frames
    && m.bytes <= m.peakBytes <= l.bytes
  }

  /** Turn number k belongs to task number k; a failed turn is the last one. */
  ghost predicate TurnOk(t: Turn, k: nat, task: Task, last: bool) {
    match t
    case Applied(i, outcome) =>
      && i == k
      && outcome == task.outcome
      && (if task.decoder.NoDecoder? then outcome.None? else outcome.Some? && outcome.value.Decoded?)
    case Skipped(i) => i == k && task.cancelled
    case FailedTurn(i) => i == k && last && task.outcome.Some? && task.outcome.value.Failed?
  }

  ghost predicate Turns(turns: seq<Turn>, ts: seq<Task>) {
    && |turns| <= |ts|
    && forall k :: 0 <= k < |turns| ==> TurnOk(turns[k], k, ts[k], k == |turns| - 1)
  }

  /** While the queue is open, exactly the removed tasks and the one being applied have had their turn. */
  ghost predicate InTurn(turns: seq<Turn>, base: nat, applying: Applying, closed: bool) {
    && (!applying.Idle? ==>
          && |turns| > 0
          && applying.task == |turns| - 1
          && turns[applying.task].Applied?)
    && (!closed ==> |turns| == base + (if applying.Idle? then 0 else 1))
    && (!closed && turns != [] ==> !turns[|turns| - 1].FailedTurn?)
  }

  /** Holds at every moment, also inside a step. */
  ghost predicate Core(q: Queue) {
    && Pointers(q.tasks, q.base, q.next)
    && (q.closed ==> q.base == |q.tasks|)
    && Conserved(q.tasks, q.metrics, q.active, q.limits)
    && Turns(q.turns, q.tasks)
    && InTurn(q.turns, q.base, q.applying, q.closed)
    && |q.errors| <= (if q.closed then 1 else 0)
  }

  /** No decode that could start is left waiting. */
  ghost predicate Pumped(q: Queue) {
    q.closed || q.active >= q.limits.parallel || q.next == |q.tasks|
  }

  /** No head that could have its turn is left waiting, and nobody waits for an empty list to drain. */
  ghost predicate Settled(q: Queue) {
    && (!q.closed && q.applying.Idle? && q.base < |q.tasks| ==> !q.tasks[q.base].ready)
    && (q.base == |q.tasks| ==> q.drains == 0)
  }

  /** Holds whenever the queue is back in its environment's hands. */
  ghost predicate Inv(q: Queue) {
    Core(q) && Pumped(q) && Settled(q)
  }

  // ---------- each procedure keeps it ----------

  lemma SumsAfter(ts: seq<Task>, i: nat, t: Task)
    requires i < |ts|
    ensures Sum(ts[i := t], FrameWeight) == Sum(ts, FrameWeight) - FrameWeight(ts[i]) + FrameWeight(t)
    ensures Sum(ts[i := t], ByteWeight) == Sum(ts, ByteWeight) - ByteWeight(ts[i]) + ByteWeight(t)
    ensures Sum(ts[i := t], FlightWeight) == Sum(ts, FlightWeight) - FlightWeight(ts[i]) + FlightWeight(t)
    ensures Sum(ts[i := t], StartWeight) == Sum(ts, StartWeight) - StartWeight(ts[i]) + StartWeight(t)
  {
    SumUpdate(ts, FrameWeight, i, t);
    SumUpdate(ts, ByteWeight, i, t);
    SumUpdate(ts, FlightWeight, i, t);
    SumUpdate(ts, StartWeight, i, t);
  }

  /** A task that is released gives back what it had reserved. */
  lemma ReleaseKeeps(q: Queue, i: nat)
    requires i < |q.tasks|
    requires Conserved(q.tasks, q.metrics, q.active, q.limits)
    ensures var r := Release(q, i);
      && Conserved(r.tasks, r.metrics, r.active, r.limits)
      && r.tasks == q.tasks[i := q.tasks[i].(released := true)]
      && r == q.(tasks := r.tasks, metrics := r.metrics)
  {
    var t := q.tasks[i];
    if t.released {
      assert q.tasks[i := t.(released := true)] == q.tasks;
    } else {
      SumsAfter(q.tasks, i, t.(released := true));
    }
  }

  /** Cancelling a task changes no counter; releasing it does. */
  lemma CancelKeeps(q: Queue, i: nat, ready: bool)
    requires i < |q.tasks|
    requires Conserved(q.tasks, q.metrics, q.active, q.limits)
    ensures Conserved(q.tasks[i := q.tasks[i].(cancelled := true, ready := ready)], q.metrics, q.active, q.limits)
  {
    SumsAfter(q.tasks, i, q.tasks[i].(cancelled := true, ready := ready));
  }

  /** Turns stay valid when the tasks keep their decoder and outcome and lose no cancellation. */
  lemma TurnsStay(turns: seq<Turn>, ts: seq<Task>, i: nat, t: Task)
    requires Turns(turns, ts)
    requires i < |ts|
    requires t.decoder == ts[i].decoder
    requires t.outcome == ts[i].outcome || |turns| <= i
    requires ts[i].cancelled ==> t.cancelled
    ensures Turns(turns, ts[i := t])
  {
  }

  lemma DropHeadKeeps(q: Queue)
    requires q.closed && q.base < |q.tasks|
    requires Pointers(q.tasks, q.base, q.next)
    requires Conserved(q.tasks, q.metrics, q.active, q.limits)
    requires Turns(q.turns, q.tasks)
    ensures var r := DropHead(q);
      && Pointers(r.tasks, r.base, r.next) && Conserved(r.tasks, r.metrics, r.active, r.limits)
         && Turns(r.turns, r.tasks)
      && |r.tasks| == |q.tasks|
      && r == q.(tasks := r.tasks, metrics := r.metrics, base := q.base + 1, next := r.next)
  {
    var i := q.base;
    var c := RemoveHead(q).(tasks := q.tasks[i := q.tasks[i].(cancelled := true)]);
    CancelKeeps(q, i, q.tasks[i].ready);
    ReleaseKeeps(c, i);
    TurnsStay(q.turns, q.tasks, i, c.tasks[i]);
    TurnsStay(q.turns, c.tasks, i, c.tasks[i].(released := true));
  }

  lemma {:induction false} RemoveAllKeeps(q: Queue)
    requires q.closed
    requires Pointers(q.tasks, q.base, q.next)
    requires Conserved(q.tasks, q.metrics, q.active, q.limits)
    requires Turns(q.turns, q.tasks)
    requires InTurn(q.turns, q.base, q.applying, q.closed)
    requires |q.errors| <= 1
    ensures var r := RemoveAll(q);
      && Core(r)
      && r == q.(tasks := r.tasks, metrics := r.metrics, base := r.base, next := r.next)
    decreases |q.tasks| - q.base
  {
    if q.base < |q.tasks| {
      DropHeadKeeps(q);
      var d := DropHead(q);
      assert InTurn(d.turns, d.base, d.applying, d.closed) by {
        assert InTurn(q.turns, q.base, q.applying, q.closed);
      }
      RemoveAllKeeps(d);
    }
  }

  lemma ClearKeeps(q: Queue)
    requires Pointers(q.tasks, q.base, q.next)
    requires q.closed ==> q.base == |q.tasks|
    requires Conserved(q.tasks, q.metrics, q.active, q.limits)
    requires Turns(q.turns, q.tasks)
    requires InTurn(q.turns, q.base, q.applying, true)
    requires |q.errors| <= (if q.closed then 1 else 0)
    ensures var r := Clear(q); Core(r) && r.closed && r.turns == q.turns && r.errors == q.errors
    ensures !q.closed ==> Settled(Clear(q))
  {
    if !q.closed {
      RemoveAllKeeps(q.(closed := true));
    }
  }

  /** A head that had its turn can leave the list once it is released. */
  lemma RemoveHeadKeeps(q: Queue)
    requires Core(q) && !q.closed && q.base < |q.tasks|
    requires q.tasks[q.base].ready
    ensures var t := q.tasks[q.base]; var r := Release(RemoveHead(q), q.base);
      && Pointers(r.tasks, r.base, r.next)
      && Conserved(r.tasks, r.metrics, r.active, r.limits)
      && Turns(r.turns, r.tasks)
      && r.base == q.base + 1
      && r == q.(tasks := r.tasks, metrics := r.metrics, base := r.base, next := r.next)
      && |r.tasks| == |q.tasks|
      && (Pumped(q) ==> Pumped(r))
  {
    var i := q.base;
    ReleaseKeeps(RemoveHead(q), i);
    TurnsStay(q.turns, q.tasks, i, q.tasks[i].(released := true));
  }

  /** A cancelled head is passed over. */
  lemma SettleSkips(q: Queue)
    requires Core(q) && q.applying.Idle? && q.base < |q.tasks| && q.tasks[q.base].ready && q.tasks[q.base].cancelled
    ensures var m := SkipHead(q);
      Core(m) && m.applying.Idle? && |m.tasks| == |q.tasks| && m.base == q.base + 1
      && Settle(q) == Settle(m) && (Pumped(q) ==> Pumped(m))
  {
    RemoveHeadKeeps(q);
  }

  /** A head that is ready and not cancelled has its turn. */
  lemma SettleServes(q: Queue)
    requires Core(q) && q.applying.Idle? && q.base < |q.tasks| && q.tasks[q.base].ready && !q.tasks[q.base].cancelled
    ensures var r := Settle(q); Core(r) && Settled(r) && (Pumped(q) ==> Pumped(r))
  {
    var t := q.tasks[q.base];
    if t.outcome.Some? && t.outcome.value.Failed? {
      ClearKeeps(q.(turns := q.turns + [FailedTurn(q.base)]));
    } else {
      ApplyHeadKeeps(q);
    }
  }

  lemma {:induction false} SettleKeeps(q: Queue)
    requires Core(q) && q.applying.Idle?
    ensures var r := Settle(q);
      && Core(r) && Settled(r)
      && (Pumped(q) ==> Pumped(r))
    decreases |q.tasks| - q.base
  {
    if q.base < |q.tasks| && q.tasks[q.base].ready {
      if q.tasks[q.base].cancelled {
        SettleSkips(q);
        SettleKeeps(SkipHead(q));
      } else {
        SettleServes(q);
      }
    }
  }

  /** A head that is ready, not cancelled and did not fail can be applied. */
  lemma ApplyHeadKeeps(q: Queue)
    requires Core(q) && q.applying.Idle? && !q.closed && q.base < |q.tasks|
    requires var t := q.tasks[q.base]; t.ready && !t.cancelled && (t.outcome.Some? ==> t.outcome.value.Decoded?)
    ensures Core(q.(applying := Calling(q.base), turns := q.turns + [Applied(q.base, q.tasks[q.base].outcome)]))
  {
  }

  lemma ApplyReadyKeeps(q: Queue)
    requires Core(q)
    requires !q.applying.Idle? || q.closed ==> Settled(q)
    ensures var r := ApplyReady(q);
      && Core(r) && Settled(r)
      && (Pumped(q) ==> Pumped(r))
  {
    if q.applying.Idle? && !q.closed {
      SettleKeeps(q);
    }
  }

  lemma MarkDecodedKeeps(q: Queue, i: nat, outcome: Outcome)
    requires Core(q) && i < |q.tasks| && q.tasks[i].InFlight()
    ensures Core(MarkDecoded(q, i, outcome))
  {
    var t := q.tasks[i].(ready := true, outcome := Some(outcome));
    SumsAfter(q.tasks, i, t);
    if i < |q.turns| {
      assert TurnOk(q.turns[i], i, q.tasks[i], i == |q.turns| - 1);
    }
  }

  /** Starting the next decode: its task is not started yet, and the cap leaves room. */
  lemma MarkStartedKeeps(q: Queue)
    requires Core(q) && q.next < |q.tasks| && q.active < q.limits.parallel
    requires !q.tasks[q.next].decoder.NoDecoder?
    ensures var s := Started(q);
      && Core(s) && |s.tasks| == |q.tasks| && s.next == q.next + 1 && s.base == q.base && s.drains == q.drains
      && s.tasks[q.next].InFlight() && s.tasks[q.next].decoder == q.tasks[q.next].decoder
  {
    var i := q.next;
    assert q.tasks[i].outcome.None?;
    SumsAfter(q.tasks, i, q.tasks[i].(started := true));
    TurnsStay(q.turns, q.tasks, i, q.tasks[i].(started := true));
  }

  lemma MoveKeeps(q: Queue)
    requires Core(q) && q.next < |q.tasks| && (q.tasks[q.next].decoder.NoDecoder? || q.tasks[q.next].cancelled)
    ensures Core(q.(next := q.next + 1))
  {
  }

  /** Nobody waits for a list that is empty. */
  ghost predicate Drained(q: Queue) {
    q.base == |q.tasks| ==> q.drains == 0
  }

  /** A task without anything to decode is passed over. */
  lemma PumpMoves(q: Queue)
    requires Core(q) && Drained(q) && !Pumped(q) && (q.tasks[q.next].decoder.NoDecoder? || q.tasks[q.next].cancelled)
    ensures var m := q.(next := q.next + 1); Core(m) && Drained(m) && Pump(q) == Pump(m)
  {
    MoveKeeps(q);
  }

  /** A decoder that returns a promise is under way, and the pump goes on. */
  lemma PumpStarts(q: Queue)
    requires Core(q) && Drained(q) && !Pumped(q) && q.tasks[q.next].decoder.Promising? && !q.tasks[q.next].cancelled
    ensures var m := Started(q);
      && Core(m) && Drained(m) && m.applying == q.applying && m.closed == q.closed
      && |m.tasks| == |q.tasks| && m.next == q.next + 1 && Pump(q) == Pump(m)
  {
    MarkStartedKeeps(q);
  }

  lemma {:induction false} PumpKeeps(q: Queue)
    requires Core(q) && Drained(q)
    ensures var r := Pump(q);
      && Core(r) && Pumped(r) && Drained(r)
      && (!q.applying.Idle? || q.closed ==> Settled(r))
    decreases |q.tasks| - q.next, 1
  {
    if !Pumped(q) {
      var t := q.tasks[q.next];
      if t.decoder.NoDecoder? || t.cancelled {
        PumpMoves(q);
        PumpKeeps(q.(next := q.next + 1));
      } else if t.decoder.Throwing? {
        StartNextKeeps(q);
      } else {
        PumpStarts(q);
        PumpKeeps(Started(q));
      }
    }
  }

  lemma StartNextKeeps(q: Queue)
    requires Core(q) && q.next < |q.tasks| && q.active < q.limits.parallel
    requires q.tasks[q.next].decoder.Throwing? && Drained(q)
    ensures Core(StartNext(q)) && Settled(StartNext(q)) && Pumped(StartNext(q))
    decreases |q.tasks| - q.next, 0
  {
    MarkStartedKeeps(q);
    ThrowKeeps(Started(q), q.next, q.tasks[q.next].decoder.error);
  }

  /** A decoder that throws at once. */
  lemma ThrowKeeps(q: Queue, i: nat, error: int)
    requires Core(q) && i < |q.tasks| && q.tasks[i].InFlight()
    requires Drained(q)
    ensures var r := ApplyReady(Pump(MarkDecoded(q, i, Failed(error)))); Core(r) && Settled(r) && Pumped(r)
    decreases |q.tasks| - q.next, 3
  {
    MarkDecodedKeeps(q, i, Failed(error));
    PumpedApplyKeeps(MarkDecoded(q, i, Failed(error)));
  }

  lemma PumpedApplyKeeps(q: Queue)
    requires Core(q)
    requires Drained(q)
    ensures var r := ApplyReady(Pump(q)); Core(r) && Settled(r) && Pumped(r)
    decreases |q.tasks| - q.next, 2
  {
    PumpKeeps(q);
    ApplyReadyKeeps(Pump(q));
  }
}
