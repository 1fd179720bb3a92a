/**
 The action I/O transport over one socket: a table of waiters, a first emission that waits for a
 writable socket and is never repeated, and an error flag saying whether the command may have
 had effects.  Commands are numbered as they are submitted.  `emit` does not call back.
 */
module ActionIoSpec {
  import opened Wrappers

  const MAX_PENDING := 32
  const MAX_WAITING_READS := 16
  const DEADLINE_MS := 30000.0

  /** What the transport reads off a command. */
  datatype Command = Command(id: string, bytes: nat, mayHaveEffects: bool, waitingRead: bool)

  datatype Waiter = Waiter(number: nat, command: Command, deadline: real, sent: bool)

  /** The two facts an error reply can state about effects. */
  datatype Details = Details(effectsPossible: Option<bool>, outcomeUnknown: Option<bool>)

  datatype Code = NotConnected | Capacity | ReaderCapacity | TooLarge | Timeout | SendUnknown
                | Disconnected | Disposed | InvalidFrame | FromHub

  /** `effects` is the flag of ActionIoError; `reply` is there when the hub itself reported the error. */
  datatype Outcome =
    | Resolved
    | FramingFailed
    | Rejected(code: Code, effects: bool, reply: Option<Details>)

  datatype Emission = Emission(number: nat, timeoutMs: int)

  /** What the socket is like when the next waiter's turn to be sent comes. */
  datatype Probe = Probe(writable: bool, now: real, throws: bool)

  datatype State = State(relay: bool, maxRequestBytes: nat, pending: seq<Waiter>, flushTimer: bool, disposed: bool,
                         commands: seq<Command>, emitted: seq<Emission>, outcomes: map<nat, Outcome>)

  function Initial(relay: bool, maxRequestBytes: nat): State {
    State(relay, maxRequestBytes, [], false, false, [], [], map[])
  }

  function Ceil(x: real): int { -((-x).Floor) }

  function Settle(s: State, number: nat, o: Outcome): State {
    s.(outcomes := s.outcomes[number := o])
  }

  function Without(ws: seq<Waiter>, i: nat): (r: seq<Waiter>)
    requires i < |ws|
    ensures |r| == |ws| - 1
    ensures forall j :: 0 <= j < |r| ==> r[j] == ws[if j < i then j else j + 1]
  {
    ws[..i] + ws[i + 1..]
  }

  /** Takes the i-th waiter out of the table and settles it. */
  function Drop(s: State, i: nat, o: Outcome): State
    requires i < |s.pending|
  {
    Settle(s, s.pending[i].number, o).(pending := Without(s.pending, i))
  }

  function MarkSent(ws: seq<Waiter>, i: nat): seq<Waiter>
    requires i < |ws|
  {
    ws[i := ws[i].(sent := true)]
  }

  /** The first emission of the i-th waiter. */
  function Send(s: State, i: nat, p: Probe): State
    requires i < |s.pending|
  {
    var w := s.pending[i];
    var remaining := Ceil(w.deadline - p.now);
    if remaining <= 0 then Drop(s, i, Rejected(Timeout, false, None))
    else
      var e := s.(emitted := s.emitted + [Emission(w.number, remaining)]);
      if p.throws then Drop(e, i, Rejected(SendUnknown, w.command.mayHaveEffects, None))
      else e.(pending := MarkSent(s.pending, i))
  }

  /** Sends from the i-th waiter on, until one finds the socket not writable. */
  function FlushFrom(s: State, i: nat, probes: seq<Probe>): State
    decreases |s.pending| - i, |probes|
  {
    if i >= |s.pending| then s
    else if s.pending[i].sent then FlushFrom(s, i + 1, probes)
    else if probes == [] || !probes[0].writable then s.(flushTimer := true)
    else
      var t := Send(s, i, probes[0]);
      FlushFrom(t, if |t.pending| == |s.pending| then i + 1 else i, probes[1..])
  }

  function Flush(s: State, connected: bool, probes: seq<Probe>): State {
    var t := s.(flushTimer := false);
    if s.disposed || !connected then t else FlushFrom(t, 0, probes)
  }

  function FailEach(s: State, code: Code): State
    decreases |s.pending|
  {
    if s.pending == [] then s
    else
      var w := s.pending[0];
      FailEach(Drop(s, 0, Rejected(code, w.sent && w.command.mayHaveEffects, None)), code)
  }

  function FailAll(s: State, code: Code): State {
    FailEach(s.(flushTimer := false), code)
  }

  // ---------- the table ----------

  predicate Has(ws: seq<Waiter>, id: string) {
    exists i :: 0 <= i < |ws| && ws[i].command.id == id
  }

  /** The place of an id in the table, |ws| when it is not there. */
  function IndexOf(ws: seq<Waiter>, id: string): (i: nat)
    ensures i <= |ws|
    ensures i < |ws| ==> ws[i].command.id == id
    ensures i == |ws| ==> !Has(ws, id)
  {
    if ws == [] then 0
    else if ws[0].command.id == id then 0
    else 1 + IndexOf(ws[1..], id)
  }

  function WaitingReads(ws: seq<Waiter>): nat {
    if ws == [] then 0 else WaitingReads(ws[..|ws| - 1]) + (if ws[|ws| - 1].command.waitingRead then 1 else 0)
  }

  /** A reply counts only for a waiter that has been sent. */
  function Deliver(s: State, id: Option<string>, o: bool -> Outcome): State {
    if id.None? then s
    else
      var i := IndexOf(s.pending, id.value);
      if i == |s.pending| || !s.pending[i].sent then s
      else Drop(s, i, o(s.pending[i].command.mayHaveEffects))
  }

  function HubError(details: Details): bool -> Outcome {
    mayHaveEffects =>
      Rejected(FromHub,
               mayHaveEffects && (details.effectsPossible != Some(false) || details.outcomeUnknown == Some(true)),
               Some(details))
  }

  // ---------- the events ----------

  /** A response frame: one that cannot be read, or one whose body is a reply. */
  datatype Frame =
    | Unreadable
    | Body(agentMatches: bool, bodyId: Option<string>, single: bool, itemId: Option<string>,
           requestId: Option<string>, details: Details)

  datatype Event =
    | Submit(command: Command, framed: bool, connected: bool, now: real, probes: seq<Probe>)
    | FlushFired(connected: bool, probes: seq<Probe>)
    | DeadlinePassed(number: nat)
    | Received(frame: Frame)
    | Refused(conversationMatches: bool, clientRequestId: Option<string>, details: Details)
    | Disconnect
    | Dispose

  predicate Enabled(s: State, e: Event) {
    match e
    case FlushFired(_, _) => s.flushTimer
    case DeadlinePassed(n) => exists i :: 0 <= i < |s.pending| && s.pending[i].number == n
    case Received(_) => !s.disposed
    case Refused(_, _, _) => s.relay && !s.disposed
    case Disconnect => !s.disposed
    case _ => true
  }

  function SubmitStep(s: State, c: Command, framed: bool, connected: bool, now: real, probes: seq<Probe>): State {
    var n := |s.commands|;
    var t := s.(commands := s.commands + [c]);
    if s.disposed || !connected then Settle(t, n, Rejected(NotConnected, false, None))
    else if |s.pending| >= MAX_PENDING || Has(s.pending, c.id) then Settle(t, n, Rejected(Capacity, false, None))
    else if c.bytes > s.maxRequestBytes then Settle(t, n, Rejected(TooLarge, false, None))
    else if c.waitingRead && WaitingReads(s.pending) >= MAX_WAITING_READS then
      Settle(t, n, Rejected(ReaderCapacity, false, None))
    else if s.relay && !framed then Settle(t, n, FramingFailed)
    else
      var added := t.(pending := s.pending + [Waiter(n, c, now + DEADLINE_MS, false)]);
      if s.flushTimer then added else Flush(added, connected, probes)
  }

  function IndexOfNumber(ws: seq<Waiter>, number: nat): (i: nat)
    requires exists i :: 0 <= i < |ws| && ws[i].number == number
    ensures i < |ws| && ws[i].number == number
  {
    if ws[0].number == number then 0
    else
      assert exists i :: 0 <= i < |ws[1..]| && ws[1..][i].number == number by {
        var i :| 0 <= i < |ws| && ws[i].number == number;
        assert ws[1..][i - 1].number == number;
      }
      1 + IndexOfNumber(ws[1..], number)
  }

  function Step(s: State, e: Event): State
    requires Enabled(s, e)
  {
    match e
    case Submit(c, framed, connected, now, probes) => SubmitStep(s, c, framed, connected, now, probes)
    case FlushFired(connected, probes) => Flush(s, connected, probes)
    case DeadlinePassed(n) =>
      var i := IndexOfNumber(s.pending, n);
      Drop(s, i, Rejected(Timeout, s.pending[i].sent && s.pending[i].command.mayHaveEffects, None))
    case Received(frame) =>
      if s.pending == [] then s
      else if frame.Unreadable? then FailAll(s, InvalidFrame)
      else if s.relay then Deliver(s, frame.bodyId, _ => Resolved)
      else if !frame.agentMatches then s
      else if !frame.single then Deliver(s, frame.requestId, HubError(frame.details))
      else Deliver(s, frame.itemId, _ => Resolved)
    case Refused(matches, id, details) => if !matches then s else Deliver(s, id, HubError(details))
    case Disconnect => FailAll(s, Disconnected)
    case Dispose => if s.disposed then s else FailAll(s, Disposed).(disposed := true)
  }
}
