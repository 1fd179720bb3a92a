/**
 Safety of the action I/O transport, over every run: the table of waiters, what was emitted, and
 how commands were settled fit together at every step, and no step takes an emission or a
 settlement back.
 */
module ActionIoSafety {
  import opened Wrappers
  import opened ActionIoSpec

  // ---------- the invariant ----------

  /** The table: in order of submission, one waiter an id, those sent before those not sent. */
  ghost predicate TableOk(ws: seq<Waiter>, commands: seq<Command>) {
    && (forall i :: 0 <= i < |ws| ==> ws[i].number < |commands| && ws[i].command == commands[ws[i].number])
    && (forall i, j :: 0 <= i < j < |ws| ==> Before(ws[i], ws[j]))
    && |ws| <= MAX_PENDING
    && WaitingReads(ws) <= MAX_WAITING_READS
  }

  ghost predicate Before(w: Waiter, x: Waiter) {
    w.number < x.number && w.command.id != x.command.id && (x.sent ==> w.sent)
  }

  ghost predicate WasEmitted(emitted: seq<Emission>, number: nat) {
    exists k :: 0 <= k < |emitted| && emitted[k].number == number
  }

  /** What was handed to `emit`: once each, in order of submission, with time left; nothing still unsent is among it. */
  ghost predicate EmittedOk(emitted: seq<Emission>, ws: seq<Waiter>, submitted: nat) {
    && (forall k :: 0 <= k < |emitted| ==> emitted[k].number < submitted && emitted[k].timeoutMs > 0)
    && (forall j, k :: 0 <= j < k < |emitted| ==> emitted[j].number < emitted[k].number)
    && (forall i, k :: 0 <= i < |ws| && !ws[i].sent && 0 <= k < |emitted| ==> emitted[k].number < ws[i].number)
    && (forall i :: 0 <= i < |ws| && ws[i].sent ==> WasEmitted(emitted, ws[i].number))
  }

  ghost predicate Pending(ws: seq<Waiter>, number: nat) {
    exists i :: 0 <= i < |ws| && ws[i].number == number
  }

  /** A command is settled, or it waits in the table, and not both. */
  ghost predicate SettledOk(outcomes: map<nat, Outcome>, ws: seq<Waiter>, submitted: nat) {
    && (forall n :: n in outcomes ==> n < submitted && !Pending(ws, n))
    && (forall n :: 0 <= n < submitted ==> n in outcomes || Pending(ws, n))
  }

  ghost predicate HubRulesOutEffects(o: Outcome) {
    o.Rejected? && o.reply.Some? && o.reply.value.effectsPossible == Some(false)
      && o.reply.value.outcomeUnknown != Some(true)
  }

  /** The flag is clear exactly when the command cannot have had effects as far as the transport knows. */
  ghost predicate FlagOk(o: Outcome, c: Command, emitted: bool) {
    o.Rejected? ==> (!o.effects <==> !emitted || !c.mayHaveEffects || HubRulesOutEffects(o))
  }

  ghost predicate FlagsOk(outcomes: map<nat, Outcome>, commands: seq<Command>, emitted: seq<Emission>) {
    forall n :: n in outcomes && n < |commands| ==> FlagOk(outcomes[n], commands[n], WasEmitted(emitted, n))
  }

  ghost predicate Inv(s: State) {
    && TableOk(s.pending, s.commands)
    && EmittedOk(s.emitted, s.pending, |s.commands|)
    && SettledOk(s.outcomes, s.pending, |s.commands|)
    && FlagsOk(s.outcomes, s.commands, s.emitted)
    && (s.disposed ==> s.pending == [] && !s.flushTimer)
  }

  // ---------- the table ----------

  lemma {:induction false} WaitingReadsWithout(ws: seq<Waiter>, i: nat)
    requires i < |ws|
    ensures WaitingReads(ws[..i] + ws[i + 1..]) <= WaitingReads(ws)
  {
    var n := |ws| - 1;
    if i == n {
      assert ws[..i] + ws[i + 1..] == ws[..n];
    } else {
      WaitingReadsWithout(ws[..n], i);
      var rest := ws[..i] + ws[i + 1..];
      assert rest[..|rest| - 1] == ws[..n][..i] + ws[..n][i + 1..];
    }
  }

  lemma {:induction false} WaitingReadsSent(ws: seq<Waiter>, i: nat)
    requires i < |ws|
    ensures WaitingReads(ws[i := ws[i].(sent := true)]) == WaitingReads(ws)
  {
    var n := |ws| - 1;
    var us := ws[i := ws[i].(sent := true)];
    if i == n {
      assert us[..n] == ws[..n];
    } else {
      assert us[..n] == ws[..n][i := ws[..n][i].(sent := true)];
      WaitingReadsSent(ws[..n], i);
    }
  }

  lemma TableWithout(ws: seq<Waiter>, i: nat, commands: seq<Command>)
    requires TableOk(ws, commands) && i < |ws|
    ensures TableOk(Without(ws, i), commands)
  {
    var us := Without(ws, i);
    WaitingReadsWithout(ws, i);
    forall j, k | 0 <= j < k < |us| ensures Before(us[j], us[k]) {
      var j', k' := if j < i then j else j + 1, if k < i then k else k + 1;
      assert us[j] == ws[j'] && us[k] == ws[k'] && j' < k';
    }
  }

  lemma EmittedWithout(emitted: seq<Emission>, ws: seq<Waiter>, submitted: nat, i: nat)
    requires EmittedOk(emitted, ws, submitted) && i < |ws|
    ensures EmittedOk(emitted, Without(ws, i), submitted)
  {
  }

  lemma SettledWithout(outcomes: map<nat, Outcome>, ws: seq<Waiter>, commands: seq<Command>, i: nat, o: Outcome)
    requires TableOk(ws, commands) && SettledOk(outcomes, ws, |commands|) && i < |ws|
    ensures SettledOk(outcomes[ws[i].number := o], Without(ws, i), |commands|)
  {
    var n := ws[i].number;
    var us := Without(ws, i);
    forall m | Pending(us, m) ensures Pending(ws, m) && m != n {
      var j :| 0 <= j < |us| && us[j].number == m;
      assert ws[if j < i then j else j + 1].number == m;
    }
    forall m | Pending(ws, m) && m != n ensures Pending(us, m) {
      var j :| 0 <= j < |ws| && ws[j].number == m;
      assert us[if j < i then j else j - 1].number == m;
    }
  }

  /** Settling a waiter keeps everything, when its outcome carries the right flag. */
  lemma DropKeeps(s: State, i: nat, o: Outcome)
    requires Inv(s) && i < |s.pending|
    requires FlagOk(o, s.pending[i].command, WasEmitted(s.emitted, s.pending[i].number))
    ensures Inv(Drop(s, i, o))
  {
    TableWithout(s.pending, i, s.commands);
    EmittedWithout(s.emitted, s.pending, |s.commands|, i);
    SettledWithout(s.outcomes, s.pending, s.commands, i, o);
  }

  /** An unsent waiter has not been emitted. */
  lemma UnsentIsNotEmitted(s: State, i: nat)
    requires Inv(s) && i < |s.pending|
    ensures s.pending[i].sent <==> WasEmitted(s.emitted, s.pending[i].number)
  {
  }

  // ---------- sending ----------

  lemma TableSent(ws: seq<Waiter>, i: nat, commands: seq<Command>)
    requires TableOk(ws, commands) && i < |ws|
    requires forall j :: 0 <= j < i ==> ws[j].sent
    ensures TableOk(MarkSent(ws, i), commands)
    ensures forall n :: Pending(MarkSent(ws, i), n) <==> Pending(ws, n)
  {
    var us := MarkSent(ws, i);
    WaitingReadsSent(ws, i);
    forall n ensures Pending(us, n) <==> Pending(ws, n) {
      if Pending(us, n) {
        var j :| 0 <= j < |us| && us[j].number == n;
        assert ws[j].number == n;
      }
      if Pending(ws, n) {
        var j :| 0 <= j < |ws| && ws[j].number == n;
        assert us[j].number == n;
      }
    }
  }

  lemma EmittedSent(emitted: seq<Emission>, ws: seq<Waiter>, commands: seq<Command>, i: nat, timeoutMs: int)
    requires EmittedOk(emitted, ws, |commands|) && TableOk(ws, commands) && i < |ws| && !ws[i].sent && timeoutMs > 0
    requires forall j :: 0 <= j < i ==> ws[j].sent
    ensures EmittedOk(emitted + [Emission(ws[i].number, timeoutMs)], MarkSent(ws, i), |commands|)
  {
    var later := emitted + [Emission(ws[i].number, timeoutMs)];
    EmittedAfter(emitted, later, ws[i].number);
    forall j | 0 <= j < |ws| && MarkSent(ws, i)[j].sent ensures WasEmitted(later, ws[j].number) {
      assert j == i || WasEmitted(emitted, ws[j].number);
    }
  }

  /** The first unsent waiter is handed to `emit`. */
  lemma EmitKeeps(s: State, i: nat, timeoutMs: int)
    requires Inv(s) && i < |s.pending| && !s.pending[i].sent && timeoutMs > 0
    requires forall j :: 0 <= j < i ==> s.pending[j].sent
    ensures var t := s.(emitted := s.emitted + [Emission(s.pending[i].number, timeoutMs)],
                        pending := MarkSent(s.pending, i));
      Inv(t) && WasEmitted(t.emitted, s.pending[i].number)
  {
    var n := s.pending[i].number;
    var emitted := s.emitted + [Emission(n, timeoutMs)];
    TableSent(s.pending, i, s.commands);
    EmittedSent(s.emitted, s.pending, s.commands, i, timeoutMs);
    EmittedAfter(s.emitted, emitted, n);
    assert Pending(s.pending, n);
    assert FlagsOk(s.outcomes, s.commands, emitted);
  }

  lemma EmittedAfter(emitted: seq<Emission>, emitted': seq<Emission>, number: nat)
    requires |emitted'| == |emitted| + 1 && emitted <= emitted' && emitted'[|emitted|].number == number
    ensures forall n :: WasEmitted(emitted', n) <==> WasEmitted(emitted, n) || n == number
  {
    assert WasEmitted(emitted', number);
    forall n | WasEmitted(emitted, n) ensures WasEmitted(emitted', n) {
      var k :| 0 <= k < |emitted| && emitted[k].number == n;
      assert emitted'[k].number == n;
    }
  }

  lemma SendKeeps(s: State, i: nat, p: Probe)
    requires Inv(s) && i < |s.pending| && !s.pending[i].sent
    requires forall j :: 0 <= j < i ==> s.pending[j].sent
    ensures Inv(Send(s, i, p))
  {
    var w := s.pending[i];
    var remaining := Ceil(w.deadline - p.now);
    if remaining <= 0 {
      UnsentIsNotEmitted(s, i);
      DropKeeps(s, i, Rejected(Timeout, false, None));
    } else {
      if p.throws {
        EmitThrowsKeeps(s, i, remaining);
      } else {
        EmitKeeps(s, i, remaining);
        assert Send(s, i, p) ==
               s.(emitted := s.emitted + [Emission(w.number, remaining)], pending := MarkSent(s.pending, i));
      }
    }
  }

  lemma EmitThrowsKeeps(s: State, i: nat, timeoutMs: int)
    requires Inv(s) && i < |s.pending| && !s.pending[i].sent && timeoutMs > 0
    requires forall j :: 0 <= j < i ==> s.pending[j].sent
    ensures Inv(Drop(s.(emitted := s.emitted + [Emission(s.pending[i].number, timeoutMs)]), i,
                     Rejected(SendUnknown, s.pending[i].command.mayHaveEffects, None)))
  {
    var e := s.(emitted := s.emitted + [Emission(s.pending[i].number, timeoutMs)]);
    var m := e.(pending := MarkSent(s.pending, i));
    EmitKeeps(s, i, timeoutMs);
    DropKeeps(m, i, Rejected(SendUnknown, s.pending[i].command.mayHaveEffects, None));
    assert Without(m.pending, i) == Without(e.pending, i);
  }

  /** The waiters before the next one to look at are all sent. */
  lemma SendAdvances(s: State, i: nat, p: Probe)
    requires i < |s.pending|
    requires forall j :: 0 <= j < i ==> s.pending[j].sent
    ensures var t := Send(s, i, p);
      var next := if |t.pending| == |s.pending| then i + 1 else i;
      next <= |t.pending| && (forall j :: 0 <= j < next ==> t.pending[j].sent) && t.disposed == s.disposed
  {
  }

  ghost predicate SentUpTo(ws: seq<Waiter>, i: nat) {
    i <= |ws| && forall j :: 0 <= j < i ==> ws[j].sent
  }

  /** The next waiter gets its turn. */
  lemma SendNext(s: State, i: nat, p: Probe)
    requires Inv(s) && i < |s.pending| && !s.pending[i].sent && SentUpTo(s.pending, i)
    ensures var t := Send(s, i, p);
      Inv(t) && t.disposed == s.disposed && SentUpTo(t.pending, if |t.pending| == |s.pending| then i + 1 else i)
  {
    SendKeeps(s, i, p);
    SendAdvances(s, i, p);
  }

  lemma {:induction false} FlushFromKeeps(s: State, i: nat, probes: seq<Probe>)
    requires Inv(s) && !s.disposed && SentUpTo(s.pending, i)
    ensures var t := FlushFrom(s, i, probes); Inv(t) && (t.flushTimer || SentUpTo(t.pending, |t.pending|))
    decreases |s.pending| - i, |probes|
  {
    if i < |s.pending| {
      if s.pending[i].sent {
        FlushFromKeeps(s, i + 1, probes);
      } else if probes != [] && probes[0].writable {
        var t := Send(s, i, probes[0]);
        SendNext(s, i, probes[0]);
        FlushFromKeeps(t, if |t.pending| == |s.pending| then i + 1 else i, probes[1..]);
      }
    }
  }

  /** No lost wake-up: a flush on a connected socket leaves nothing unsent without a timer to try again. */
  lemma FlushKeeps(s: State, connected: bool, probes: seq<Probe>)
    requires Inv(s)
    ensures var t := Flush(s, connected, probes);
      Inv(t) && (!s.disposed && connected ==> t.flushTimer || forall j :: 0 <= j < |t.pending| ==> t.pending[j].sent)
  {
    if !s.disposed && connected {
      FlushFromKeeps(s.(flushTimer := false), 0, probes);
    }
  }

  lemma {:induction false} FailEachKeeps(s: State, code: Code)
    requires Inv(s)
    ensures var t := FailEach(s, code);
      && Inv(t) && t.pending == [] && t.emitted == s.emitted && t.commands == s.commands
      && t.disposed == s.disposed && t.flushTimer == s.flushTimer
    decreases |s.pending|
  {
    if s.pending != [] {
      var w := s.pending[0];
      var o := Rejected(code, w.sent && w.command.mayHaveEffects, None);
      var m := Drop(s, 0, o);
      assert Inv(m) by {
        UnsentIsNotEmitted(s, 0);
        DropKeeps(s, 0, o);
      }
      FailEachKeeps(m, code);
    }
  }

  lemma FailAllKeeps(s: State, code: Code)
    requires Inv(s)
    ensures var t := FailAll(s, code); Inv(t) && t.pending == [] && !t.flushTimer && t.disposed == s.disposed
  {
    FailEachKeeps(s.(flushTimer := false), code);
  }

  lemma DeliverKeeps(s: State, id: Option<string>, details: Option<Details>)
    requires Inv(s)
    ensures Inv(Deliver(s, id, if details.None? then _ => Resolved else HubError(details.value)))
  {
    if id.Some? {
      var i := IndexOf(s.pending, id.value);
      if i < |s.pending| && s.pending[i].sent {
        UnsentIsNotEmitted(s, i);
        DropKeeps(s, i,
            (if details.None? then _ => Resolved else HubError(details.value))(s.pending[i].command.mayHaveEffects));
      }
    }
  }

  // ---------- submitting ----------

  lemma RefusedKeeps(s: State, c: Command, o: Outcome)
    requires Inv(s) && (o.Rejected? ==> !o.effects)
    ensures Inv(Settle(s.(commands := s.commands + [c]), |s.commands|, o))
  {
    var n := |s.commands|;
    var commands := s.commands + [c];
    assert !WasEmitted(s.emitted, n);
    assert TableOk(s.pending, commands);
    assert SettledOk(s.outcomes[n := o], s.pending, |commands|);
    assert FlagsOk(s.outcomes[n := o], commands, s.emitted);
  }

  lemma TableAdd(ws: seq<Waiter>, commands: seq<Command>, c: Command, deadline: real)
    requires TableOk(ws, commands)
    requires |ws| < MAX_PENDING && !Has(ws, c.id)
    requires c.waitingRead ==> WaitingReads(ws) < MAX_WAITING_READS
    ensures TableOk(ws + [Waiter(|commands|, c, deadline, false)], commands + [c])
  {
    var w := Waiter(|commands|, c, deadline, false);
    RowsAdd(ws, commands, c, w);
    WaitingReadsAdd(ws, w);
  }

  lemma RowsAdd(ws: seq<Waiter>, commands: seq<Command>, c: Command, w: Waiter)
    requires forall i :: 0 <= i < |ws| ==> ws[i].number < |commands| && ws[i].command == commands[ws[i].number]
    requires forall i, j :: 0 <= i < j < |ws| ==> Before(ws[i], ws[j])
    requires w.number == |commands| && w.command == c && !w.sent && !Has(ws, c.id)
    ensures forall i :: 0 <= i < |ws| + 1 ==>
              (ws + [w])[i].number < |commands| + 1 && (ws + [w])[i].command == (commands + [c])[(ws + [w])[i].number]
    ensures forall i, j :: 0 <= i < j < |ws| + 1 ==> Before((ws + [w])[i], (ws + [w])[j])
  {
  }

  lemma WaitingReadsAdd(ws: seq<Waiter>, w: Waiter)
    ensures WaitingReads(ws + [w]) == WaitingReads(ws) + if w.command.waitingRead then 1 else 0
  {
    assert (ws + [w])[..|ws|] == ws;
  }

  lemma PendingAdd(ws: seq<Waiter>, w: Waiter)
    ensures forall n :: Pending(ws + [w], n) <==> Pending(ws, n) || n == w.number
  {
    var us := ws + [w];
    forall n ensures Pending(us, n) <==> Pending(ws, n) || n == w.number {
      if Pending(ws, n) {
        var j :| 0 <= j < |ws| && ws[j].number == n;
        assert us[j].number == n;
      }
      assert us[|ws|].number == w.number;
    }
  }

  lemma AddKeeps(s: State, c: Command, deadline: real)
    requires Inv(s) && !s.disposed
    requires |s.pending| < MAX_PENDING && !Has(s.pending, c.id)
    requires c.waitingRead ==> WaitingReads(s.pending) < MAX_WAITING_READS
    ensures Inv(s.(commands := s.commands + [c], pending := s.pending + [Waiter(|s.commands|, c, deadline, false)]))
  {
    var w := Waiter(|s.commands|, c, deadline, false);
    TableAdd(s.pending, s.commands, c, deadline);
    PendingAdd(s.pending, w);
    assert EmittedOk(s.emitted, s.pending + [w], |s.commands| + 1);
    assert SettledOk(s.outcomes, s.pending + [w], |s.commands| + 1);
    assert FlagsOk(s.outcomes, s.commands + [c], s.emitted);
  }

  lemma SubmitKeeps(s: State, c: Command, framed: bool, connected: bool, now: real, probes: seq<Probe>)
    requires Inv(s)
    ensures Inv(SubmitStep(s, c, framed, connected, now, probes))
  {
    if s.disposed || !connected {
      RefusedKeeps(s, c, Rejected(NotConnected, false, None));
    } else if |s.pending| >= MAX_PENDING || Has(s.pending, c.id) {
      RefusedKeeps(s, c, Rejected(Capacity, false, None));
    } else if c.bytes > s.maxRequestBytes {
      RefusedKeeps(s, c, Rejected(TooLarge, false, None));
    } else if c.waitingRead && WaitingReads(s.pending) >= MAX_WAITING_READS {
      RefusedKeeps(s, c, Rejected(ReaderCapacity, false, None));
    } else if s.relay && !framed {
      RefusedKeeps(s, c, FramingFailed);
    } else {
      var deadline := now + DEADLINE_MS;
      AddKeeps(s, c, deadline);
      FlushKeeps(s.(commands := s.commands + [c], pending := s.pending + [Waiter(|s.commands|, c, deadline, false)]),
                 connected, probes);
    }
  }

  /** Every event keeps the table, the emissions, the settlements and the flags in order. */
  lemma StepKeeps(s: State, e: Event)
    requires Inv(s) && Enabled(s, e)
    ensures Inv(Step(s, e))
    ensures e.Disconnect? || e.Dispose? ==> Step(s, e).pending == []
  {
    match e
    case Submit(c, framed, connected, now, probes) => SubmitKeeps(s, c, framed, connected, now, probes);
    case FlushFired(connected, probes) => FlushKeeps(s, connected, probes);
    case DeadlinePassed(n) =>
      var i := IndexOfNumber(s.pending, n);
      UnsentIsNotEmitted(s, i);
      DropKeeps(s, i, Rejected(Timeout, s.pending[i].sent && s.pending[i].command.mayHaveEffects, None));
    case Received(frame) => ReceivedKeeps(s, frame);
    case Refused(_, id, details) => DeliverKeeps(s, id, Some(details));
    case Disconnect => FailAllKeeps(s, Disconnected);
    case Dispose => if !s.disposed { FailAllKeeps(s, Disposed); }
  }

  lemma ReceivedKeeps(s: State, frame: Frame)
    requires Inv(s) && Enabled(s, Received(frame))
    ensures Inv(Step(s, Received(frame)))
  {
    if s.pending == [] {
    } else if frame.Unreadable? {
      FailAllKeeps(s, InvalidFrame);
    } else {
      DeliverKeeps(s, frame.bodyId, None);
      DeliverKeeps(s, frame.requestId, Some(frame.details));
      DeliverKeeps(s, frame.itemId, None);
    }
  }

  // ---------- what no step takes back ----------

  /** Emissions and settlements are final, and after dispose nothing is emitted. */
  ghost predicate Later(s: State, t: State) {
    && s.commands <= t.commands
    && s.emitted <= t.emitted
    && (forall n :: n in s.outcomes ==> n in t.outcomes && t.outcomes[n] == s.outcomes[n])
    && (s.disposed ==> t.disposed && t.emitted == s.emitted)
  }

  /** What keeps settlements final: no waiter of the table is settled, and no two share a number. */
  ghost predicate Unsettled(s: State) {
    && (forall i :: 0 <= i < |s.pending| ==> s.pending[i].number !in s.outcomes && s.pending[i].number < |s.commands|)
    && (forall i, j :: 0 <= i < j < |s.pending| ==> s.pending[i].number != s.pending[j].number)
  }

  lemma InvIsUnsettled(s: State)
    requires Inv(s)
    ensures Unsettled(s)
  {
    forall i | 0 <= i < |s.pending| ensures s.pending[i].number !in s.outcomes {
      assert Pending(s.pending, s.pending[i].number);
    }
  }

  lemma LaterTrans(s: State, m: State, t: State)
    requires Later(s, m) && Later(m, t)
    ensures Later(s, t)
  {
  }

  lemma DropIsLater(s: State, i: nat, o: Outcome)
    requires Unsettled(s) && i < |s.pending|
    ensures Later(s, Drop(s, i, o)) && Unsettled(Drop(s, i, o))
  {
  }

  lemma SendIsLater(s: State, i: nat, p: Probe)
    requires Unsettled(s) && !s.disposed && i < |s.pending|
    ensures Later(s, Send(s, i, p)) && Unsettled(Send(s, i, p)) && !Send(s, i, p).disposed
  {
    var w := s.pending[i];
    var e := s.(emitted := s.emitted + [Emission(w.number, Ceil(w.deadline - p.now))]);
    DropIsLater(s, i, Rejected(Timeout, false, None));
    DropIsLater(e, i, Rejected(SendUnknown, w.command.mayHaveEffects, None));
  }

  lemma {:induction false} FlushFromIsLater(s: State, i: nat, probes: seq<Probe>)
    requires Unsettled(s) && !s.disposed
    ensures Later(s, FlushFrom(s, i, probes))
    decreases |s.pending| - i, |probes|
  {
    if i < |s.pending| {
      if s.pending[i].sent {
        FlushFromIsLater(s, i + 1, probes);
      } else if probes != [] && probes[0].writable {
        var t := Send(s, i, probes[0]);
        var next := if |t.pending| == |s.pending| then i + 1 else i;
        SendIsLater(s, i, probes[0]);
        FlushFromIsLater(t, next, probes[1..]);
        LaterTrans(s, t, FlushFrom(t, next, probes[1..]));
      }
    }
  }

  lemma {:induction false} FailEachIsLater(s: State, code: Code)
    requires Unsettled(s)
    ensures Later(s, FailEach(s, code))
    decreases |s.pending|
  {
    if s.pending != [] {
      var w := s.pending[0];
      var m := Drop(s, 0, Rejected(code, w.sent && w.command.mayHaveEffects, None));
      DropIsLater(s, 0, Rejected(code, w.sent && w.command.mayHaveEffects, None));
      FailEachIsLater(m, code);
      LaterTrans(s, m, FailEach(s, code));
    }
  }

  lemma DeliverIsLater(s: State, id: Option<string>, o: bool -> Outcome)
    requires Unsettled(s)
    ensures Later(s, Deliver(s, id, o))
  {
    if id.Some? {
      var i := IndexOf(s.pending, id.value);
      if i < |s.pending| { DropIsLater(s, i, o(s.pending[i].command.mayHaveEffects)); }
    }
  }

  lemma SubmitIsLater(s: State, c: Command, framed: bool, connected: bool, now: real, probes: seq<Probe>)
    requires Unsettled(s) && |s.commands| !in s.outcomes
    ensures Later(s, SubmitStep(s, c, framed, connected, now, probes))
  {
    var added := s.(commands := s.commands + [c],
                    pending := s.pending + [Waiter(|s.commands|, c, now + DEADLINE_MS, false)]);
    assert Unsettled(added);
    if !s.disposed && connected {
      FlushFromIsLater(added.(flushTimer := false), 0, probes);
    }
  }

  lemma StepIsLater(s: State, e: Event)
    requires Unsettled(s) && |s.commands| !in s.outcomes && Enabled(s, e)
    ensures Later(s, Step(s, e))
  {
    match e
    case Submit(c, framed, connected, now, probes) => SubmitIsLater(s, c, framed, connected, now, probes);
    case FlushFired(connected, probes) =>
      if !s.disposed { FlushFromIsLater(s.(flushTimer := false), 0, probes); }
    case DeadlinePassed(n) =>
      var i := IndexOfNumber(s.pending, n);
      DropIsLater(s, i, Rejected(Timeout, s.pending[i].sent && s.pending[i].command.mayHaveEffects, None));
    case Received(Unreadable) => FailEachIsLater(s.(flushTimer := false), InvalidFrame);
    case Received(frame) =>
      DeliverIsLater(s, frame.bodyId, _ => Resolved);
      DeliverIsLater(s, frame.requestId, HubError(frame.details));
      DeliverIsLater(s, frame.itemId, _ => Resolved);
    case Refused(_, id, details) => DeliverIsLater(s, id, HubError(details));
    case Disconnect => FailEachIsLater(s.(flushTimer := false), Disconnected);
    case Dispose => FailEachIsLater(s.(flushTimer := false), Disposed);
  }

  // ---------- theorems over runs ----------

  ghost predicate ValidRun(s: State, es: seq<Event>)
    decreases |es|
  {
    es == [] || (Enabled(s, es[0]) && ValidRun(Step(s, es[0]), es[1..]))
  }

  ghost function After(s: State, es: seq<Event>): State
    requires ValidRun(s, es)
    decreases |es|
  {
    if es == [] then s else After(Step(s, es[0]), es[1..])
  }

  lemma {:induction false} RunKeeps(s: State, es: seq<Event>)
    requires Inv(s) && ValidRun(s, es)
    ensures Inv(After(s, es)) && Later(s, After(s, es))
    decreases |es|
  {
    if es != [] {
      var m := Step(s, es[0]);
      StepKeeps(s, es[0]);
      InvIsUnsettled(s);
      assert |s.commands| !in s.outcomes;
      StepIsLater(s, es[0]);
      RunKeeps(m, es[1..]);
      LaterTrans(s, m, After(m, es[1..]));
    }
  }

  lemma InitialInv(relay: bool, maxRequestBytes: nat)
    ensures Inv(Initial(relay, maxRequestBytes))
  {
  }

  /**
   A rejected command is flagged as free of effects exactly when it was never handed to `emit`,
   its method has none, or the hub's own reply rules them out.
   */
  lemma EffectFlagIsExact(relay: bool, maxRequestBytes: nat, es: seq<Event>, n: nat)
    requires ValidRun(Initial(relay, maxRequestBytes), es)
    requires var s := After(Initial(relay, maxRequestBytes), es); n in s.outcomes && s.outcomes[n].Rejected?
    ensures var s := After(Initial(relay, maxRequestBytes), es);
      n < |s.commands| &&
      (!s.outcomes[n].effects <==>
        || (forall k :: 0 <= k < |s.emitted| ==> s.emitted[k].number != n)
        || !s.commands[n].mayHaveEffects
        || HubRulesOutEffects(s.outcomes[n]))
  {
    InitialInv(relay, maxRequestBytes);
    RunKeeps(Initial(relay, maxRequestBytes), es);
    var s := After(Initial(relay, maxRequestBytes), es);
    assert FlagOk(s.outcomes[n], s.commands[n], WasEmitted(s.emitted, n));
  }

  /** Commands reach the socket at most once each, in order of submission and before their deadline. */
  lemma EmittedOnceInOrder(relay: bool, maxRequestBytes: nat, es: seq<Event>)
    requires ValidRun(Initial(relay, maxRequestBytes), es)
    ensures var s := After(Initial(relay, maxRequestBytes), es);
      && (forall j, k :: 0 <= j < k < |s.emitted| ==> s.emitted[j].number < s.emitted[k].number)
      && (forall k :: 0 <= k < |s.emitted| ==> s.emitted[k].number < |s.commands| && s.emitted[k].timeoutMs > 0)
  {
    InitialInv(relay, maxRequestBytes);
    RunKeeps(Initial(relay, maxRequestBytes), es);
  }

  /** A command is in the table exactly as long as it is not settled, and the table stays within its bounds. */
  lemma PendingUntilSettled(relay: bool, maxRequestBytes: nat, es: seq<Event>, n: nat)
    requires ValidRun(Initial(relay, maxRequestBytes), es)
    requires n < |After(Initial(relay, maxRequestBytes), es).commands|
    ensures var s := After(Initial(relay, maxRequestBytes), es);
      && (n in s.outcomes <==> !Pending(s.pending, n))
      && |s.pending| <= 32 && WaitingReads(s.pending) <= 16
      && (s.disposed ==> n in s.outcomes)
  {
    InitialInv(relay, maxRequestBytes);
    RunKeeps(Initial(relay, maxRequestBytes), es);
  }

  /** A settlement is final, and a disposed transport emits nothing any more. */
  lemma SettledForGood(s: State, es: seq<Event>, n: nat)
    requires Inv(s) && ValidRun(s, es)
    ensures n in s.outcomes ==> n in After(s, es).outcomes && After(s, es).outcomes[n] == s.outcomes[n]
    ensures s.disposed ==> After(s, es).emitted == s.emitted
  {
    RunKeeps(s, es);
  }

  /** A disconnect or dispose settles everything that was pending. */
  lemma NothingOutlivesTheConnection(s: State, e: Event)
    requires Inv(s) && Enabled(s, e) && (e.Disconnect? || e.Dispose?)
    ensures Step(s, e).pending == []
    ensures forall n :: 0 <= n < |s.commands| ==> n in Step(s, e).outcomes
  {
    StepKeeps(s, e);
    InvIsUnsettled(s);
    assert |s.commands| !in s.outcomes;
    StepIsLater(s, e);
  }
}
