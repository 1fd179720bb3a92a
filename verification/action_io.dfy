/** The action I/O transport with its waiter table, flush timer and disposed flag. */
module ActionIoTransports {
  import opened Wrappers
  import opened ActionIoSpec
  import Safety = ActionIoSafety

  class ActionIoTransport {
    const relay: bool
    const maxRequestBytes: nat
    var pending: seq<Waiter> // in insertion order, like the entries of a Map
    var flushTimer: bool
    var disposed: bool
    var commands: seq<Command>       // every command submitted
    var emitted: seq<Emission>       // what was handed to the socket
    var outcomes: map<nat, Outcome>  // how the promises were settled

    ghost function View(): State
      reads this
    {
      State(relay, maxRequestBytes, pending, flushTimer, disposed, commands, emitted, outcomes)
    }

    ghost predicate Valid()
      reads this
    {
      Safety.Inv(View())
    }

    constructor (relay: bool, maxRequestBytes: nat)
      ensures Valid() && View() == Initial(relay, maxRequestBytes)
    {
      this.relay, this.maxRequestBytes := relay, maxRequestBytes;
      pending, flushTimer, disposed := [], false, false;
      commands, emitted, outcomes := [], [], map[];
      new;
      Safety.InitialInv(relay, maxRequestBytes);
    }

    // ---------- internal procedures ----------

    method Drop(i: nat, o: Outcome)
      requires i < |pending|
      modifies `pending, `outcomes
      ensures View() == ActionIoSpec.Drop(old(View()), i, o)
    {
      outcomes := outcomes[pending[i].number := o];
      pending := Without(pending, i);
    }

    method Send(i: nat, p: Probe)
      requires i < |pending|
      modifies `pending, `outcomes, `emitted
      ensures View() == ActionIoSpec.Send(old(View()), i, p)
    {
      var w := pending[i];
      var remaining := Ceil(w.deadline - p.now);
      if remaining <= 0 {
        Drop(i, Rejected(Timeout, false, None));
        return;
      }
      emitted := emitted + [Emission(w.number, remaining)];
      if p.throws {
        Drop(i, Rejected(SendUnknown, w.command.mayHaveEffects, None));
      } else {
        pending := MarkSent(pending, i);
      }
    }

    method Flush(connected: bool, probes: seq<Probe>)
      modifies this
      ensures View() == ActionIoSpec.Flush(old(View()), connected, probes)
    {
      flushTimer := false;
      if disposed || !connected {
        return;
      }
      var i, k := 0, 0;
      while i < |pending|
        invariant i <= |pending| && k <= |probes|
        invariant FlushFrom(View(), i, probes[k..]) == FlushFrom(old(View()).(flushTimer := false), 0, probes)
        decreases |pending| - i, |probes| - k
      {
        if pending[i].sent {
          i := i + 1;
          continue;
        }
        if k == |probes| || !probes[k].writable {
          flushTimer := true;
          return;
        }
        var size := |pending|;
        Send(i, probes[k]);
        k := k + 1;
        if |pending| == size {
          i := i + 1;
        }
      }
    }

    method FailAll(code: Code)
      modifies `pending, `outcomes, `flushTimer
      ensures View() == ActionIoSpec.FailAll(old(View()), code)
    {
      flushTimer := false;
      while pending != []
        invariant FailEach(View(), code) == ActionIoSpec.FailAll(old(View()), code)
        decreases |pending|
      {
        Drop(0, Rejected(code, pending[0].sent && pending[0].command.mayHaveEffects, None));
      }
    }

    method Deliver(id: Option<string>, o: bool -> Outcome)
      modifies `pending, `outcomes
      ensures View() == ActionIoSpec.Deliver(old(View()), id, o)
    {
      if id.Some? {
        var i := IndexOf(pending, id.value);
        if i < |pending| && pending[i].sent {
          Drop(i, o(pending[i].command.mayHaveEffects));
        }
      }
    }

    // ---------- the events ----------

    method Submit(c: Command, framed: bool, connected: bool, now: real, probes: seq<Probe>)
      requires Valid()
      modifies this
      ensures Valid() && View() == Step(old(View()), ActionIoSpec.Submit(c, framed, connected, now, probes))
    {
      Safety.StepKeeps(View(), ActionIoSpec.Submit(c, framed, connected, now, probes));
      Admit(c, framed, connected, now, probes);
    }

    /** The checks of a command, in their order, and its first flush. */
    method Admit(c: Command, framed: bool, connected: bool, now: real, probes: seq<Probe>)
      modifies this
      ensures View() == SubmitStep(old(View()), c, framed, connected, now, probes)
    {
      var n := |commands|;
      commands := commands + [c];
      if disposed || !connected {
        outcomes := outcomes[n := Rejected(NotConnected, false, None)];
      } else if |pending| >= MAX_PENDING || IndexOf(pending, c.id) < |pending| {
        outcomes := outcomes[n := Rejected(Capacity, false, None)];
      } else if c.bytes > maxRequestBytes {
        outcomes := outcomes[n := Rejected(TooLarge, false, None)];
      } else if c.waitingRead && WaitingReads(pending) >= MAX_WAITING_READS {
        outcomes := outcomes[n := Rejected(ReaderCapacity, false, None)];
      } else if relay && !framed {
        outcomes := outcomes[n := FramingFailed];
      } else {
        pending := pending + [Waiter(n, c, now + DEADLINE_MS, false)];
        if !flushTimer {
          Flush(connected, probes);
        }
      }
    }

    method FlushFired(connected: bool, probes: seq<Probe>)
      requires Valid() && flushTimer
      modifies this
      ensures Valid() && View() == Step(old(View()), ActionIoSpec.FlushFired(connected, probes))
    {
      Safety.StepKeeps(View(), ActionIoSpec.FlushFired(connected, probes));
      Flush(connected, probes);
    }

    /** A waiter's own timer fires; it is cleared when the waiter is settled. */
    method DeadlinePassed(n: nat)
      requires Valid() && Enabled(View(), ActionIoSpec.DeadlinePassed(n))
      modifies this
      ensures Valid() && View() == Step(old(View()), ActionIoSpec.DeadlinePassed(n))
    {
      Safety.StepKeeps(View(), ActionIoSpec.DeadlinePassed(n));
      var i := IndexOfNumber(pending, n);
      Drop(i, Rejected(Timeout, pending[i].sent && pending[i].command.mayHaveEffects, None));
    }

    method Received(frame: Frame)
      requires Valid() && !disposed
      modifies this
      ensures Valid() && View() == Step(old(View()), ActionIoSpec.Received(frame))
    {
      Safety.StepKeeps(View(), ActionIoSpec.Received(frame));
      if pending == [] {
        return;
      }
      match frame
      case Unreadable => FailAll(InvalidFrame);
      case Body(agentMatches, bodyId, single, itemId, requestId, details) =>
        if relay {
          Deliver(bodyId, _ => Resolved);
        } else if agentMatches {
          if single {
            Deliver(itemId, _ => Resolved);
          } else {
            Deliver(requestId, HubError(details));
          }
        }
    }

    /** relay:rpc.accepted with a refusal. */
    method Refused(conversationMatches: bool, clientRequestId: Option<string>, details: Details)
      requires Valid() && relay && !disposed
      modifies this
      ensures Valid()
              && View() == Step(old(View()), ActionIoSpec.Refused(conversationMatches, clientRequestId, details))
    {
      Safety.StepKeeps(View(), ActionIoSpec.Refused(conversationMatches, clientRequestId, details));
      if conversationMatches {
        Deliver(clientRequestId, HubError(details));
      }
    }

    method Disconnect()
      requires Valid() && !disposed
      modifies this
      ensures Valid() && View() == Step(old(View()), ActionIoSpec.Disconnect)
      ensures pending == []
    {
      Safety.StepKeeps(View(), ActionIoSpec.Disconnect);
      FailAll(Disconnected);
    }

    method Dispose()
      requires Valid()
      modifies this
      ensures Valid() && View() == Step(old(View()), ActionIoSpec.Dispose)
      ensures pending == [] && disposed
    {
      Safety.StepKeeps(View(), ActionIoSpec.Dispose);
      if !disposed {
        FailAll(ActionIoSpec.Disposed);
        disposed := true;
      }
    }
  }
}
