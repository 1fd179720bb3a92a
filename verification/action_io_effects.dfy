/** Which commands each event of the action I/O transport settles, and how. */
module ActionIoEffects {
  import opened Wrappers
  import opened ActionIoSpec
  import opened ActionIoSafety

  // ---------- replies ----------

  /** The id a reply names, if it is meant for this transport at all. */
  function Named(relay: bool, e: Event): Option<string> {
    match e
    case Received(Body(agentMatches, bodyId, single, itemId, requestId, _)) =>
      if relay then bodyId
      else if !agentMatches then None
      else if single then itemId
      else requestId
    case Refused(conversationMatches, clientRequestId, _) => if conversationMatches then clientRequestId else None
    case _ => None
  }

  /** The waiter has been sent, and the reply names its command. */
  ghost predicate Answers(relay: bool, e: Event, w: Waiter) {
    w.sent && Named(relay, e) == Some(w.command.id)
  }

  /** What a reply says about a command: a result, or an error with what it states about effects. */
  ghost predicate AnsweredBy(relay: bool, e: Event, c: Command, o: Outcome)
    requires e.Refused? || (e.Received? && e.frame.Body?)
  {
    if e.Received? && (relay || e.frame.single) then o == Resolved
    else
      var d := if e.Refused? then e.details else e.frame.details;
      && o.Rejected? && o.code == FromHub && o.reply == Some(d)
      && (o.effects <==> c.mayHaveEffects && !(d.effectsPossible == Some(false) && d.outcomeUnknown != Some(true)))
  }

  /** Nothing but the table and the settlements differs. */
  ghost predicate OnlySettles(s: State, r: State) {
    r.relay == s.relay && r.maxRequestBytes == s.maxRequestBytes && r.disposed == s.disposed
    && r.commands == s.commands && r.emitted == s.emitted
  }

  lemma DropExactly(s: State, i: nat, o: Outcome)
    requires TableOk(s.pending, s.commands) && i < |s.pending|
    ensures var r := Drop(s, i, o); var w := s.pending[i];
      && r.outcomes == s.outcomes[w.number := o] && OnlySettles(s, r) && r.flushTimer == s.flushTimer
      && (forall x :: x in r.pending <==> x in s.pending && x != w)
  {
    var r, w := Drop(s, i, o), s.pending[i];
    forall x ensures x in r.pending <==> x in s.pending && x != w {
      if x in s.pending && x != w {
        var j :| 0 <= j < |s.pending| && s.pending[j] == x;
        assert r.pending[if j < i then j else j - 1] == x;
      }
      if x in r.pending {
        var j :| 0 <= j < |r.pending| && r.pending[j] == x;
        assert x == s.pending[if j < i then j else j + 1];
        assert Before(s.pending[if j < i then j else i], s.pending[if j < i then i else j + 1]);
      }
    }
  }

  /** One waiter an id. */
  lemma SameId(s: State, w: Waiter, x: Waiter)
    requires TableOk(s.pending, s.commands) && w in s.pending && x in s.pending && w.command.id == x.command.id
    ensures w == x
  {
    var i :| 0 <= i < |s.pending| && s.pending[i] == w;
    var j :| 0 <= j < |s.pending| && s.pending[j] == x;
    assert i < j ==> Before(s.pending[i], s.pending[j]);
    assert j < i ==> Before(s.pending[j], s.pending[i]);
  }

  /** A reply to one id takes its waiter out, if that has been sent, and touches nothing else. */
  ghost predicate SettlesOnly(s: State, r: State, id: Option<string>, o: bool -> Outcome) {
    && OnlySettles(s, r) && r.flushTimer == s.flushTimer
    && (forall w :: w in r.pending <==> w in s.pending && !(w.sent && id == Some(w.command.id)))
    && (forall w :: w in s.pending && w.sent && id == Some(w.command.id) ==>
          w.number in r.outcomes && r.outcomes[w.number] == o(w.command.mayHaveEffects))
    && (forall n :: n in s.outcomes ==> n in r.outcomes && r.outcomes[n] == s.outcomes[n])
    && (forall n :: n in r.outcomes && n !in s.outcomes ==>
          exists w :: w in s.pending && w.sent && id == Some(w.command.id) && w.number == n)
  }

  lemma DeliverExactly(s: State, id: Option<string>, o: bool -> Outcome)
    requires Inv(s)
    ensures SettlesOnly(s, Deliver(s, id, o), id, o)
  {
    if id.Some? {
      var i := IndexOf(s.pending, id.value);
      if i < |s.pending| {
        var x := s.pending[i];
        assert Pending(s.pending, x.number) && x in s.pending;
        forall w | w in s.pending && w.command.id == id.value ensures w == x {
          SameId(s, w, x);
        }
        if x.sent {
          DropExactly(s, i, o(x.command.mayHaveEffects));
        }
      } else {
        forall w | w in s.pending ensures w.command.id != id.value {
          var j :| 0 <= j < |s.pending| && s.pending[j] == w;
        }
      }
    }
  }

  /** What a reply settles a command with, given whether that may have effects. */
  function ReplyOutcome(relay: bool, e: Event): bool -> Outcome
    requires e.Refused? || (e.Received? && e.frame.Body?)
  {
    if e.Received? && (relay || e.frame.single) then _ => Resolved
    else HubError(if e.Refused? then e.details else e.frame.details)
  }

  lemma ReplyIsDelivered(s: State, e: Event)
    requires Enabled(s, e) && (e.Refused? || (e.Received? && e.frame.Body?))
    ensures Step(s, e) == Deliver(s, Named(s.relay, e), ReplyOutcome(s.relay, e))
  {
  }

  lemma ReplyAnswers(relay: bool, e: Event, c: Command)
    requires e.Refused? || (e.Received? && e.frame.Body?)
    ensures AnsweredBy(relay, e, c, ReplyOutcome(relay, e)(c.mayHaveEffects))
  {
  }

  /**
   A reply that can be read settles exactly the command it names, if that has been sent, and
   settles it as it says; every other waiter and every settlement stays.
   */
  lemma ReplySettlesExactly(s: State, e: Event)
    requires Inv(s) && Enabled(s, e) && (e.Refused? || (e.Received? && e.frame.Body?))
    ensures var r := Step(s, e);
      && OnlySettles(s, r) && r.flushTimer == s.flushTimer
      && (forall w :: w in r.pending <==> w in s.pending && !Answers(s.relay, e, w))
      && (forall w :: w in s.pending && Answers(s.relay, e, w) ==>
            w.number in r.outcomes && AnsweredBy(s.relay, e, w.command, r.outcomes[w.number]))
      && (forall n :: n in s.outcomes ==> n in r.outcomes && r.outcomes[n] == s.outcomes[n])
      && (forall n :: n in r.outcomes && n !in s.outcomes ==>
            exists w :: w in s.pending && Answers(s.relay, e, w) && w.number == n)
  {
    ReplyIsDelivered(s, e);
    DeliverExactly(s, Named(s.relay, e), ReplyOutcome(s.relay, e));
    ReplySettles(s, e, Step(s, e));
  }

  lemma ReplySettles(s: State, e: Event, r: State)
    requires e.Refused? || (e.Received? && e.frame.Body?)
    requires SettlesOnly(s, r, Named(s.relay, e), ReplyOutcome(s.relay, e))
    ensures forall w :: w in r.pending <==> w in s.pending && !Answers(s.relay, e, w)
    ensures forall w :: w in s.pending && Answers(s.relay, e, w) ==>
              w.number in r.outcomes && AnsweredBy(s.relay, e, w.command, r.outcomes[w.number])
    ensures forall n :: n in r.outcomes && n !in s.outcomes ==>
              exists w :: w in s.pending && Answers(s.relay, e, w) && w.number == n
  {
    forall w | w in s.pending && Answers(s.relay, e, w)
      ensures w.number in r.outcomes && AnsweredBy(s.relay, e, w.command, r.outcomes[w.number])
    {
      ReplyAnswers(s.relay, e, w.command);
    }
    forall n | n in r.outcomes && n !in s.outcomes
      ensures exists w :: w in s.pending && Answers(s.relay, e, w) && w.number == n
    {
      var w :| w in s.pending && w.sent && Named(s.relay, e) == Some(w.command.id) && w.number == n;
      assert Answers(s.relay, e, w);
    }
  }

  // ---------- the end of everything ----------

  /** All waiters are rejected with this code, flagged by whether they were sent. */
  ghost predicate RejectsAll(s: State, r: State, code: Code) {
    && r.pending == [] && r.relay == s.relay && r.maxRequestBytes == s.maxRequestBytes
    && r.commands == s.commands && r.emitted == s.emitted
    && (forall w :: w in s.pending ==>
          w.number in r.outcomes && r.outcomes[w.number] == Rejected(code, w.sent && w.command.mayHaveEffects, None))
    && (forall n :: n in s.outcomes ==> n in r.outcomes && r.outcomes[n] == s.outcomes[n])
    && (forall n :: n in r.outcomes && n !in s.outcomes ==> Pending(s.pending, n))
  }

  lemma {:induction false} FailEachExactly(s: State, code: Code)
    requires Inv(s)
    ensures RejectsAll(s, FailEach(s, code), code)
    ensures FailEach(s, code).flushTimer == s.flushTimer && FailEach(s, code).disposed == s.disposed
    decreases |s.pending|
  {
    if s.pending != [] {
      var w := s.pending[0];
      var o := Rejected(code, w.sent && w.command.mayHaveEffects, None);
      var m := Drop(s, 0, o);
      FirstDropped(s, code);
      assert Pending(s.pending, w.number);
      FailEachExactly(m, code);
      RejectsFirst(s, m, FailEach(m, code), code);
    }
  }

  lemma FirstDropped(s: State, code: Code)
    requires Inv(s) && s.pending != []
    ensures var m := Drop(s, 0, Rejected(code, s.pending[0].sent && s.pending[0].command.mayHaveEffects, None));
      && Inv(m) && OnlySettles(s, m) && m.flushTimer == s.flushTimer
      && (forall x :: x in m.pending <==> x in s.pending && x != s.pending[0])
  {
    var o := Rejected(code, s.pending[0].sent && s.pending[0].command.mayHaveEffects, None);
    UnsentIsNotEmitted(s, 0);
    DropKeeps(s, 0, o);
    DropExactly(s, 0, o);
  }

  lemma RejectsFirst(s: State, m: State, r: State, code: Code)
    requires s.pending != [] && s.pending[0].number !in s.outcomes && RejectsAll(m, r, code)
    requires m == Drop(s, 0, Rejected(code, s.pending[0].sent && s.pending[0].command.mayHaveEffects, None))
    requires forall x :: x in m.pending <==> x in s.pending && x != s.pending[0]
    ensures RejectsAll(s, r, code)
  {
    assert Pending(s.pending, s.pending[0].number);
    forall n | n in r.outcomes && n !in s.outcomes ensures Pending(s.pending, n) {
      if n !in m.outcomes {
        var j :| 0 <= j < |m.pending| && m.pending[j].number == n;
        assert s.pending[j + 1].number == n;
      }
    }
  }

  /** The code with which an event ends everything, if it does. */
  function EndOf(s: State, e: Event): Option<Code> {
    match e
    case Received(Unreadable) => Some(InvalidFrame)
    case Disconnect => Some(Disconnected)
    case Dispose => if s.disposed then None else Some(Disposed)
    case _ => None
  }

  /** A frame that cannot be read, a disconnect and a dispose reject everything that waits. */
  lemma EndsAllExactly(s: State, e: Event)
    requires Inv(s) && Enabled(s, e) && EndOf(s, e).Some?
    ensures var r := Step(s, e);
      && RejectsAll(s, r, EndOf(s, e).value) && (r.disposed <==> s.disposed || e.Dispose?)
      && (s.pending != [] || !e.Received? ==> !r.flushTimer)
  {
    FailEachExactly(s.(flushTimer := false), EndOf(s, e).value);
  }

  /** A deadline settles its own command, as a timeout, and nothing else. */
  lemma DeadlineSettlesExactly(s: State, n: nat, w: Waiter)
    requires Inv(s) && Enabled(s, DeadlinePassed(n)) && w in s.pending && w.number == n
    ensures var r := Step(s, DeadlinePassed(n));
      && OnlySettles(s, r) && r.flushTimer == s.flushTimer
      && r.outcomes == s.outcomes[n := Rejected(Timeout, w.sent && w.command.mayHaveEffects, None)]
      && (forall x :: x in r.pending <==> x in s.pending && x != w)
  {
    var i := IndexOfNumber(s.pending, n);
    SameNumber(s, w, s.pending[i]);
    DropExactly(s, i, Rejected(Timeout, w.sent && w.command.mayHaveEffects, None));
  }

  lemma SameNumber(s: State, w: Waiter, x: Waiter)
    requires TableOk(s.pending, s.commands) && w in s.pending && x in s.pending && w.number == x.number
    ensures w == x
  {
    var i :| 0 <= i < |s.pending| && s.pending[i] == w;
    var j :| 0 <= j < |s.pending| && s.pending[j] == x;
    assert i < j ==> Before(s.pending[i], s.pending[j]);
    assert j < i ==> Before(s.pending[j], s.pending[i]);
  }

  // ---------- sending ----------

  /** The socket is found writable for the first j + 1 waiters that have not been sent. */
  ghost predicate Reached(probes: seq<Probe>, j: int) {
    j < |probes| && forall l :: 0 <= l <= j ==> probes[l].writable
  }

  /** The milliseconds left to a waiter. */
  function Left(w: Waiter, now: real): int { -((now - w.deadline).Floor) }

  /** What becomes of the j-th waiter that has not been sent. */
  ghost predicate Fate(w: Waiter, probes: seq<Probe>, j: int, r: State)
    requires 0 <= j
  {
    if !Reached(probes, j) then
      w in r.pending && w.number !in r.outcomes && !WasEmitted(r.emitted, w.number)
    else if Left(w, probes[j].now) <= 0 then
      && w.number in r.outcomes && r.outcomes[w.number] == Rejected(Timeout, false, None)
      && !WasEmitted(r.emitted, w.number)
    else
      && Emission(w.number, Left(w, probes[j].now)) in r.emitted
      && if probes[j].throws then
           w.number in r.outcomes && r.outcomes[w.number] == Rejected(SendUnknown, w.command.mayHaveEffects, None)
         else w.(sent := true) in r.pending && w.number !in r.outcomes
  }

  ghost predicate AmongFrom(ws: seq<Waiter>, i: int, n: nat) {
    exists j :: 0 <= i <= j < |ws| && ws[j].number == n
  }

  ghost predicate FateAt(ws: seq<Waiter>, i: int, probes: seq<Probe>, r: State, j: int) {
    0 <= i <= j < |ws| ==> Fate(ws[j], probes, j - i, r)
  }

  /** Settlements are added for waiters from i on. */
  ghost predicate OutcomesAdded(s: State, i: int, r: State) {
    && (forall n :: n in s.outcomes ==> n in r.outcomes && r.outcomes[n] == s.outcomes[n])
    && (forall n :: n in r.outcomes && n !in s.outcomes ==> AmongFrom(s.pending, i, n))
  }

  /** So are emissions. */
  ghost predicate EmissionsAdded(s: State, i: int, r: State) {
    && s.emitted <= r.emitted
    && (forall k :: |s.emitted| <= k < |r.emitted| ==> AmongFrom(s.pending, i, r.emitted[k].number))
  }

  ghost predicate SameElse(s: State, r: State) {
    && r.relay == s.relay && r.maxRequestBytes == s.maxRequestBytes && r.disposed == s.disposed
    && r.commands == s.commands
  }

  /** What a flush does with the waiters from i on, none of which has been sent, and with nothing else. */
  ghost predicate Flushes(s: State, i: nat, probes: seq<Probe>, r: State) {
    && i <= |s.pending| && SameElse(s, r)
    && (forall j :: FateAt(s.pending, i, probes, r, j))
    && (forall j :: 0 <= j < i ==> s.pending[j] in r.pending)
    && OutcomesAdded(s, i, r) && EmissionsAdded(s, i, r)
    && (r.flushTimer <==> s.flushTimer || (i < |s.pending| && !Reached(probes, |s.pending| - 1 - i)))
  }

  /** Where to go on after the i-th waiter had its turn. */
  function After(s: State, t: State, i: nat): nat { if |t.pending| == |s.pending| then i + 1 else i }

  /** The turn of one waiter. */
  ghost predicate Turn(s: State, i: nat, p: Probe, t: State)
    requires i < |s.pending|
  {
    var w, left := s.pending[i], Left(s.pending[i], p.now);
    && t.relay == s.relay && t.maxRequestBytes == s.maxRequestBytes && t.disposed == s.disposed
    && t.commands == s.commands && t.flushTimer == s.flushTimer
    && After(s, t, i) <= |t.pending| && t.pending[After(s, t, i)..] == s.pending[i + 1..]
    && i <= |t.pending| && t.pending[..i] == s.pending[..i]
    && t.emitted == (if left <= 0 then s.emitted else s.emitted + [Emission(w.number, left)])
    && if left <= 0 then t.outcomes == s.outcomes[w.number := Rejected(Timeout, false, None)]
       else if p.throws then t.outcomes == s.outcomes[w.number := Rejected(SendUnknown, w.command.mayHaveEffects, None)]
       else t.outcomes == s.outcomes && |t.pending| == |s.pending| && t.pending[i] == w.(sent := true)
  }

  lemma SendIsTurn(s: State, i: nat, p: Probe)
    requires i < |s.pending|
    ensures Turn(s, i, p, Send(s, i, p))
  {
    var t := Send(s, i, p);
    assert t.pending[After(s, t, i)..] == s.pending[i + 1..];
    assert t.pending[..i] == s.pending[..i];
  }

  lemma ReachedNext(probes: seq<Probe>, j: nat)
    requires probes != [] && probes[0].writable
    ensures Reached(probes[1..], j) <==> Reached(probes, j + 1)
  {
    if Reached(probes[1..], j) {
      assert forall l :: 1 <= l <= j + 1 ==> probes[l] == probes[1..][l - 1];
    }
    if Reached(probes, j + 1) {
      assert forall l :: 0 <= l <= j ==> probes[1..][l] == probes[l + 1];
    }
  }

  lemma FateNext(w: Waiter, probes: seq<Probe>, j: nat, r: State)
    requires probes != [] && probes[0].writable && Fate(w, probes[1..], j, r)
    ensures Fate(w, probes, j + 1, r)
  {
    ReachedNext(probes, j);
  }

  /** What is among the rest after a turn was behind the waiter before it. */
  lemma LaterNumber(s: State, i: nat, t: State, n: nat)
    requires TableOk(s.pending, s.commands) && i < |s.pending| && After(s, t, i) <= |t.pending|
    requires t.pending[After(s, t, i)..] == s.pending[i + 1..] && AmongFrom(t.pending, After(s, t, i), n)
    ensures n != s.pending[i].number && AmongFrom(s.pending, i, n)
  {
    var k := After(s, t, i);
    var j :| k <= j < |t.pending| && t.pending[j].number == n;
    assert t.pending[k..][j - k] == s.pending[i + 1..][j - k];
    assert Before(s.pending[i], s.pending[i + 1 + j - k]);
  }

  /** The rest of a flush settles others only. */
  lemma OthersSettle(s: State, i: nat, t: State, r: State)
    requires TableOk(s.pending, s.commands) && i < |s.pending| && After(s, t, i) <= |t.pending|
    requires t.pending[After(s, t, i)..] == s.pending[i + 1..] && OutcomesAdded(t, After(s, t, i), r)
    ensures var n := s.pending[i].number; n in r.outcomes <==> n in t.outcomes
  {
    var n := s.pending[i].number;
    if n in r.outcomes && n !in t.outcomes {
      LaterNumber(s, i, t, n);
    }
  }

  lemma OthersEmitted(s: State, i: nat, t: State, r: State)
    requires TableOk(s.pending, s.commands) && i < |s.pending| && After(s, t, i) <= |t.pending|
    requires t.pending[After(s, t, i)..] == s.pending[i + 1..] && EmissionsAdded(t, After(s, t, i), r)
    ensures WasEmitted(r.emitted, s.pending[i].number) ==> WasEmitted(t.emitted, s.pending[i].number)
  {
    var n := s.pending[i].number;
    if WasEmitted(r.emitted, n) {
      var k :| 0 <= k < |r.emitted| && r.emitted[k].number == n;
      if k >= |t.emitted| {
        LaterNumber(s, i, t, n);
      }
      assert t.emitted[k].number == n;
    }
  }

  /** The first in line has had its turn. */
  lemma FirstFate(s: State, i: nat, probes: seq<Probe>, t: State, r: State)
    requires Inv(s) && i < |s.pending| && !s.pending[i].sent && probes != [] && probes[0].writable
    requires Turn(s, i, probes[0], t)
    requires OutcomesAdded(t, After(s, t, i), r) && EmissionsAdded(t, After(s, t, i), r)
    requires forall j :: 0 <= j < After(s, t, i) ==> t.pending[j] in r.pending
    ensures Fate(s.pending[i], probes, 0, r)
  {
    var w, left := s.pending[i], Left(s.pending[i], probes[0].now);
    OthersSettle(s, i, t, r);
    if left <= 0 {
      UnsentIsNotEmitted(s, i);
      OthersEmitted(s, i, t, r);
    } else {
      assert t.emitted[|s.emitted|] == Emission(w.number, left) && r.emitted[|s.emitted|] == t.emitted[|s.emitted|];
      if !probes[0].throws {
        assert Pending(s.pending, w.number) && w.number !in s.outcomes;
        assert t.pending[i] in r.pending;
      }
    }
  }

  /** The others keep their fates, seen from before the turn. */
  lemma OtherFates(s: State, i: nat, probes: seq<Probe>, t: State, r: State, j: nat)
    requires i < j < |s.pending| && probes != [] && probes[0].writable
    requires Turn(s, i, probes[0], t) && FateAt(t.pending, After(s, t, i), probes[1..], r, After(s, t, i) + j - i - 1)
    ensures Fate(s.pending[j], probes, j - i, r)
  {
    var k := After(s, t, i);
    assert t.pending[k..][j - i - 1] == s.pending[i + 1..][j - i - 1];
    assert |t.pending[k..]| == |s.pending[i + 1..]|;
    FateNext(s.pending[j], probes, j - i - 1, r);
  }

  lemma OutcomesThenFlush(s: State, i: nat, p: Probe, t: State, r: State)
    requires Inv(s) && i < |s.pending| && Turn(s, i, p, t) && OutcomesAdded(t, After(s, t, i), r)
    ensures OutcomesAdded(s, i, r)
  {
    assert Pending(s.pending, s.pending[i].number) && s.pending[i].number !in s.outcomes;
    forall n | n in r.outcomes && n !in s.outcomes ensures AmongFrom(s.pending, i, n) {
      if n != s.pending[i].number {
        LaterNumber(s, i, t, n);
      }
    }
  }

  lemma EmissionsThenFlush(s: State, i: nat, p: Probe, t: State, r: State)
    requires Inv(s) && i < |s.pending| && Turn(s, i, p, t) && EmissionsAdded(t, After(s, t, i), r)
    ensures EmissionsAdded(s, i, r)
  {
    forall k | |s.emitted| <= k < |r.emitted| ensures AmongFrom(s.pending, i, r.emitted[k].number) {
      if k < |t.emitted| {
        assert t.emitted[k] == r.emitted[k] && r.emitted[k].number == s.pending[i].number;
      } else {
        LaterNumber(s, i, t, r.emitted[k].number);
      }
    }
  }

  lemma FatesThenFlush(s: State, i: nat, probes: seq<Probe>, t: State, r: State)
    requires i < |s.pending| && probes != [] && probes[0].writable && Turn(s, i, probes[0], t)
    requires Fate(s.pending[i], probes, 0, r) && forall j :: FateAt(t.pending, After(s, t, i), probes[1..], r, j)
    ensures forall j :: FateAt(s.pending, i, probes, r, j)
  {
    forall j ensures FateAt(s.pending, i, probes, r, j) {
      if i < j < |s.pending| {
        assert FateAt(t.pending, After(s, t, i), probes[1..], r, After(s, t, i) + j - i - 1);
        OtherFates(s, i, probes, t, r, j);
      }
    }
  }

  /** The rest of the flush, seen from before the turn. */
  lemma TurnThenFlush(s: State, i: nat, probes: seq<Probe>, t: State, r: State)
    requires Inv(s) && i < |s.pending| && !s.pending[i].sent && probes != [] && probes[0].writable
    requires Turn(s, i, probes[0], t) && Flushes(t, After(s, t, i), probes[1..], r)
    ensures Flushes(s, i, probes, r)
  {
    FirstFate(s, i, probes, t, r);
    FatesThenFlush(s, i, probes, t, r);
    EarlierStay(s, i, probes[0], t, r);
    OutcomesThenFlush(s, i, probes[0], t, r);
    EmissionsThenFlush(s, i, probes[0], t, r);
    TimerThenFlush(s, i, probes, t, r);
  }

  lemma EarlierStay(s: State, i: nat, p: Probe, t: State, r: State)
    requires i < |s.pending| && Turn(s, i, p, t) && forall j :: 0 <= j < After(s, t, i) ==> t.pending[j] in r.pending
    ensures forall j :: 0 <= j < i ==> s.pending[j] in r.pending
  {
    forall j | 0 <= j < i ensures s.pending[j] in r.pending {
      assert t.pending[..i][j] == s.pending[..i][j];
    }
  }

  lemma TimerThenFlush(s: State, i: nat, probes: seq<Probe>, t: State, r: State)
    requires i < |s.pending| && probes != [] && probes[0].writable && Turn(s, i, probes[0], t)
    requires r.flushTimer <==>
             t.flushTimer
             || (After(s, t, i) < |t.pending| && !Reached(probes[1..], |t.pending| - 1 - After(s, t, i)))
    ensures r.flushTimer <==> s.flushTimer || (i < |s.pending| && !Reached(probes, |s.pending| - 1 - i))
  {
    assert |t.pending[After(s, t, i)..]| == |s.pending[i + 1..]|;
    if i + 1 < |s.pending| {
      ReachedNext(probes, |s.pending| - 2 - i);
    }
  }

  /** The socket is not writable: everything stays, and a timer is set to try again. */
  lemma FlushWaits(s: State, i: nat, probes: seq<Probe>)
    requires Inv(s) && i < |s.pending| && (forall j :: i <= j < |s.pending| ==> !s.pending[j].sent)
    requires probes == [] || !probes[0].writable
    ensures Flushes(s, i, probes, s.(flushTimer := true))
  {
    var r := s.(flushTimer := true);
    assert forall j :: 0 <= j ==> !Reached(probes, j);
    forall j ensures FateAt(s.pending, i, probes, r, j) {
      if i <= j < |s.pending| {
        UnsentIsNotEmitted(s, j);
        assert Pending(s.pending, s.pending[j].number) && s.pending[j].number !in s.outcomes;
      }
    }
  }

  lemma {:induction false} FlushFromExactly(s: State, i: nat, probes: seq<Probe>)
    requires Inv(s) && !s.disposed && SentUpTo(s.pending, i)
    requires forall j :: i <= j < |s.pending| ==> !s.pending[j].sent
    ensures Flushes(s, i, probes, FlushFrom(s, i, probes))
    decreases |s.pending| - i, |probes|
  {
    if i < |s.pending| {
      if probes == [] || !probes[0].writable {
        FlushWaits(s, i, probes);
      } else {
        var t := Send(s, i, probes[0]);
        SendNext(s, i, probes[0]);
        SendIsTurn(s, i, probes[0]);
        forall j | After(s, t, i) <= j < |t.pending| ensures !t.pending[j].sent {
          assert t.pending[j] == t.pending[After(s, t, i)..][j - After(s, t, i)];
        }
        FlushFromExactly(t, After(s, t, i), probes[1..]);
        TurnThenFlush(s, i, probes, t, FlushFrom(s, i, probes));
      }
    }
  }

  /** The waiters that have been sent are the first ones; `i` is where the others begin. */
  ghost predicate Split(ws: seq<Waiter>, i: nat) {
    SentUpTo(ws, i) && forall j :: i <= j < |ws| ==> !ws[j].sent
  }

  lemma {:induction false} SkipSent(s: State, i: nat, k: nat, probes: seq<Probe>)
    requires i <= k && SentUpTo(s.pending, k)
    ensures FlushFrom(s, i, probes) == FlushFrom(s, k, probes)
    decreases k - i
  {
    if i < k {
      SkipSent(s, i + 1, k, probes);
    }
  }

  lemma {:induction false} SplitAt(ws: seq<Waiter>, commands: seq<Command>, n: nat) returns (i: nat)
    requires TableOk(ws, commands) && n <= |ws| && forall j :: n <= j < |ws| ==> !ws[j].sent
    ensures Split(ws, i)
  {
    if n == 0 {
      i := 0;
    } else if ws[n - 1].sent {
      i := n;
      forall j | 0 <= j < n ensures ws[j].sent {
        if j < n - 1 {
          assert Before(ws[j], ws[n - 1]);
        }
      }
    } else {
      i := SplitAt(ws, commands, n - 1);
    }
  }

  ghost predicate Flushed(m: State, probes: seq<Probe>, r: State) {
    exists i: nat :: Split(m.pending, i) && Flushes(m, i, probes, r)
  }

  /**
   A flush takes the waiters that have not been sent in order, one probe each, until one finds the
   socket not writable: each is rejected if its deadline has passed, and else emitted once with the
   time it has left - rejected as unknown if that throws.  The others wait for the timer, which is
   set exactly if there are any.
   */
  lemma FlushesExactly(s: State, connected: bool, probes: seq<Probe>)
    requires Inv(s) && !s.disposed && connected
    ensures Flushed(s.(flushTimer := false), probes, Flush(s, connected, probes))
  {
    var t := s.(flushTimer := false);
    var i := SplitAt(s.pending, s.commands, |s.pending|);
    SkipSent(t, 0, i, probes);
    FlushFromExactly(t, i, probes);
  }

  /** When the timer fires, that is what happens; if the socket is gone, nothing but that the timer is cleared. */
  lemma TimerFlushesExactly(s: State, connected: bool, probes: seq<Probe>)
    requires Inv(s) && Enabled(s, FlushFired(connected, probes))
    ensures var r, t := Step(s, FlushFired(connected, probes)), s.(flushTimer := false);
      if connected then Flushed(t, probes, r) else r == t
  {
    if connected {
      FlushesExactly(s, connected, probes);
    }
  }

  // ---------- submitting ----------

  ghost predicate Known(ws: seq<Waiter>, id: string) {
    exists w :: w in ws && w.command.id == id
  }

  /** Why a command is not let in: the first of the checks it fails. */
  ghost predicate RefusedFor(s: State, c: Command, framed: bool, connected: bool, o: Outcome) {
    var up := connected && !s.disposed;
    var room := up && |s.pending| < MAX_PENDING && !Known(s.pending, c.id);
    var fits := room && c.bytes <= s.maxRequestBytes;
    var readable := fits && !(c.waitingRead && WaitingReads(s.pending) >= MAX_WAITING_READS);
    || (!up && o == Rejected(NotConnected, false, None))
    || (up && !room && o == Rejected(Capacity, false, None))
    || (room && !fits && o == Rejected(TooLarge, false, None))
    || (fits && !readable && o == Rejected(ReaderCapacity, false, None))
    || (readable && s.relay && !framed && o == FramingFailed)
  }

  ghost predicate Admits(s: State, c: Command, framed: bool, connected: bool) {
    && connected && !s.disposed && |s.pending| < MAX_PENDING && !Known(s.pending, c.id)
    && c.bytes <= s.maxRequestBytes && (c.waitingRead ==> WaitingReads(s.pending) < MAX_WAITING_READS)
    && (s.relay ==> framed)
  }

  /** The command has entered the table with its deadline, and nothing else has changed. */
  ghost predicate Enters(s: State, c: Command, now: real, m: State) {
    m == s.(commands := s.commands + [c], pending := s.pending + [Waiter(|s.commands|, c, now + DEADLINE_MS, false)])
  }

  lemma HasIsKnown(ws: seq<Waiter>, id: string)
    ensures Has(ws, id) <==> Known(ws, id)
  {
    if Known(ws, id) {
      var w :| w in ws && w.command.id == id;
      var i :| 0 <= i < |ws| && ws[i] == w;
    }
  }

  lemma RefusesExactly(s: State, c: Command, framed: bool, connected: bool, now: real, probes: seq<Probe>)
    requires !Admits(s, c, framed, connected)
    ensures var r := Step(s, Submit(c, framed, connected, now, probes)); var n := |s.commands|;
      && n in r.outcomes && RefusedFor(s, c, framed, connected, r.outcomes[n])
      && r == s.(commands := s.commands + [c], outcomes := s.outcomes[n := r.outcomes[n]])
  {
    HasIsKnown(s.pending, c.id);
  }

  lemma AdmitsExactly(s: State, c: Command, framed: bool, connected: bool, now: real, probes: seq<Probe>)
    returns (m: State)
    requires Inv(s) && Admits(s, c, framed, connected)
    ensures Enters(s, c, now, m) && Inv(m)
    ensures Step(s, Submit(c, framed, connected, now, probes)) ==
            if s.flushTimer then m else Flush(m, connected, probes)
  {
    HasIsKnown(s.pending, c.id);
    AddKeeps(s, c, now + DEADLINE_MS);
    m := s.(commands := s.commands + [c], pending := s.pending + [Waiter(|s.commands|, c, now + DEADLINE_MS, false)]);
  }

  /**
   A command that fails a check is settled at once, for the first check it fails, and changes
   nothing else; any other one enters the table and is flushed, unless a timer is set to do it.
   */
  lemma SubmitsExactly(s: State, c: Command, framed: bool, connected: bool, now: real, probes: seq<Probe>)
    requires Inv(s)
    ensures var r := Step(s, Submit(c, framed, connected, now, probes)); var n := |s.commands|;
      if Admits(s, c, framed, connected) then
        exists m :: Enters(s, c, now, m) && if s.flushTimer then r == m else Flushed(m, probes, r)
      else
        && n in r.outcomes && RefusedFor(s, c, framed, connected, r.outcomes[n])
        && r == s.(commands := s.commands + [c], outcomes := s.outcomes[n := r.outcomes[n]])
  {
    if Admits(s, c, framed, connected) {
      var m := AdmitsExactly(s, c, framed, connected, now, probes);
      if !s.flushTimer {
        FlushesExactly(m, connected, probes);
        assert m.(flushTimer := false) == m;
      }
    } else {
      RefusesExactly(s, c, framed, connected, now, probes);
    }
  }
}
