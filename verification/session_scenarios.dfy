/**
 Runs of the session runner that refresh a session again after it has been replaced: in the window
 before the new session is current, and while no session is current.
 */
module SessionScenarios {
  import opened Wrappers
  import opened SessionSpec
  import opened SessionSafety

  /** The states a runner can be in. */
  ghost predicate Reachable(s: State) {
    exists es: seq<Event> :: ValidRun(INITIAL, es) && After(INITIAL, es) == s
  }

  lemma {:induction false} AfterExtended(s: State, es: seq<Event>, e: Event)
    requires ValidRun(s, es) && Enabled(After(s, es), e)
    ensures ValidRun(s, es + [e]) && After(s, es + [e]) == Step(After(s, es), e)
    decreases |es|
  {
    if es == [] {
      assert [e][1..] == [];
    } else {
      assert (es + [e])[1..] == es[1..] + [e];
      AfterExtended(Step(s, es[0]), es[1..], e);
    }
  }

  lemma Next(s: State, e: Event, t: State)
    requires Reachable(s) && Enabled(s, e) && Step(s, e) == t
    ensures Reachable(t)
  {
    var es: seq<Event> :| ValidRun(INITIAL, es) && After(INITIAL, es) == s;
    AfterExtended(INITIAL, es, e);
    assert After(INITIAL, es + [e]) == t;
  }

  const LOGGED_IN := Request(Login, Some(Issued(0)), false, true)

  /** A run whose callback is at work with the given session. */
  function Calling(session: Sid, asked: seq<Stage>): Run { Run(InCallback, [session], false, asked) }

  const RETRYABLE := Error(true, false)

  /** One run has logged in and is in its callback. */
  const ONE_CALLING := State(Some(0), None, None, [LOGGED_IN], map[0 := Calling(0, [First])], 1, {})

  /** A run that has a session comes to call with it. */
  lemma Proceeds(s: State, r: RunId, session: Sid, asked: seq<Stage>)
    requires Reachable(s) && r in s.runs && s.runs[r] == Run(HasSession(session, First), [], false, asked)
    ensures Reachable(s.(runs := s.runs[r := Calling(session, asked)]))
  {
    var m := s.(runs := s.runs[r := Run(HasFresh(session, First), [], false, asked)]);
    Next(s, Continue(r, false), m);
    assert [] + [session] == [session];
    assert m.runs[r := Calling(session, asked)] == s.runs[r := Calling(session, asked)];
    Next(m, Continue(r, false), s.(runs := s.runs[r := Calling(session, asked)]));
  }

  /** The first run has asked for a login, and it is answered. */
  const LOGIN_ANSWERED :=
    State(None, Some(0), None, [Request(Login, Some(Issued(0)), false, false)],
          map[0 := Run(AwaitLogin(0, First), [], false, [First])], 1, {})

  lemma LoginIsAnswered()
    ensures Reachable(LOGIN_ANSWERED)
  {
    assert ValidRun(INITIAL, []) && After(INITIAL, []) == INITIAL;
    var q := Request(Login, None, false, false);
    var s := State(None, Some(0), None, [q], map[0 := Run(AwaitLogin(0, First), [], false, [First])], 0, {});
    assert [] + [First] == [First];
    Next(INITIAL, Start(0), s);
    Next(s, Answered(0, None), LOGIN_ANSWERED);
  }

  lemma LogsIn() returns (s: State)
    ensures s == State(Some(0), None, None, [LOGGED_IN], map[0 := Run(HasSession(0, First), [], false, [First])], 1, {})
    ensures Reachable(s)
  {
    LoginIsAnswered();
    s := Step(LOGIN_ANSWERED, Resumed(0));
    assert s.runs == map[0 := Run(HasSession(0, First), [], false, [First])];
    Next(LOGIN_ANSWERED, Resumed(0), s);
  }

  lemma OneCalls()
    ensures Reachable(ONE_CALLING)
  {
    var s := LogsIn();
    Proceeds(s, 0, 0, [First]);
    assert s.(runs := s.runs[0 := Calling(0, [First])]) == ONE_CALLING;
  }

  /** One more run comes to call with the current session. */
  lemma Joins(s: State, r: RunId)
    requires Reachable(s) && s.current.Some? && r !in s.runs
    ensures Reachable(s.(runs := s.runs[r := Calling(s.current.value, [])]))
  {
    var session := s.current.value;
    var s1 := s.(runs := s.runs[r := Run(HasSession(session, First), [], false, [])]);
    Starts(s, r);
    Proceeds(s1, r, session, []);
    assert s1.runs[r := Calling(session, [])] == s.runs[r := Calling(session, [])];
  }

  lemma Starts(s: State, r: RunId)
    requires Reachable(s) && s.current.Some? && r !in s.runs
    ensures Reachable(s.(runs := s.runs[r := Run(HasSession(s.current.value, First), [], false, [])]))
  {
    Next(s, Start(r), s.(runs := s.runs[r := Run(HasSession(s.current.value, First), [], false, [])]));
  }

  /** A calling run fails, and asks for a refresh of its session. */
  function Refreshing(s: State, r: RunId, session: Sid, asked: seq<Stage>): State {
    var id := |s.requests|;
    s.(requests := s.requests + [Request(Refresh(session), None, false, false)], inFlightRefresh := Some(id),
       runs := s.runs[r := Run(AwaitRefresh(id, Recovery(session)), [session], true, asked + [Recovery(session)])])
  }

  lemma Fails(s: State, r: RunId, session: Sid, asked: seq<Stage>)
    requires Reachable(s) && s.current == Some(session) && s.inFlightRefresh.None?
    requires r in s.runs && s.runs[r] == Calling(session, asked)
    ensures Reachable(Refreshing(s, r, session, asked))
  {
    Next(s, CallbackFailed(r, RETRYABLE), Refreshing(s, r, session, asked));
  }

  /** The refresh in flight is answered, and cleared, but not resumed. */
  function Cleared(s: State, id: nat, answer: Answer): State
    requires id < |s.requests|
  {
    s.(requests := s.requests[id := Request(s.requests[id].kind, Some(answer), true, false)], inFlightRefresh := None,
       issued := if answer.Issued? then s.issued + 1 else s.issued)
  }

  lemma Clears(s: State, id: nat, refusal: Option<Error>)
    requires Reachable(s) && id < |s.requests| && s.inFlightRefresh == Some(id)
    requires s.requests[id].kind.Refresh? && s.requests[id] == Request(s.requests[id].kind, None, false, false)
    ensures Reachable(Cleared(s, id, if refusal.Some? then Refused(refusal.value) else Issued(s.issued)))
  {
    var answer := if refusal.Some? then Refused(refusal.value) else Issued(s.issued);
    var m := Step(s, Answered(id, refusal));
    Next(s, Answered(id, refusal), m);
    Next(m, Event.Cleared(id), Cleared(s, id, answer));
  }

  /** Two runs call with session 0. */
  const BOTH_CALLING :=
    State(Some(0), None, None, [LOGGED_IN], map[0 := Calling(0, [First]), 1 := Calling(0, [])], 1, {})

  lemma BothCall()
    ensures Reachable(BOTH_CALLING)
  {
    OneCalls();
    Joins(ONE_CALLING, 1);
    assert ONE_CALLING.(runs := ONE_CALLING.runs[1 := Calling(0, [])]) == BOTH_CALLING;
  }

  /** The first of them awaits a refresh, the second still calls. */
  const WAITING: map<RunId, Run> :=
    map[0 := Run(AwaitRefresh(1, Recovery(0)), [0], true, [First, Recovery(0)]), 1 := Calling(0, [])]

  /** The refresh is asked for. */
  const REFRESHING :=
    State(Some(0), None, Some(1), [LOGGED_IN, Request(Refresh(0), None, false, false)], WAITING, 1, {})

  lemma RefreshingIs()
    ensures Refreshing(BOTH_CALLING, 0, 0, [First]) == REFRESHING
  {
    assert [First] + [Recovery(0)] == [First, Recovery(0)];
  }

  /** It is answered and cleared, but not resumed. */
  lemma WindowState() returns (s: State)
    ensures Reachable(s) && s.current == Some(0) && s.inFlightRefresh.None? && |s.requests| == 2
    ensures s.requests[1] == Request(Refresh(0), Some(Issued(1)), true, false)
    ensures s.issued == 2 && s.past == {} && s.inFlightLogin.None? && s.runs == WAITING
  {
    BothCall();
    Fails(BOTH_CALLING, 0, 0, [First]);
    RefreshingIs();
    Clears(REFRESHING, 1, None);
    s := Cleared(REFRESHING, 1, Issued(1));
  }

  /** Inside the window: the second run's callback fails before the new session is current. */
  lemma AsksAgainInWindow() returns (s: State, e: Event)
    ensures Reachable(s) && Enabled(s, e) && s.current == Some(0) && InWindow(s, 0) && AsksFor(s, e, 0) && Renewed(s, 0)
  {
    s := WindowState();
    e := CallbackFailed(1, RETRYABLE);
    assert RenewedBy(s, 1, 0);
    RefreshAsksForCurrent(s, e, 0);
  }

  /** Without a session: the new session is dropped before a run that still calls with the old one fails. */
  lemma AsksAgainWithoutSession() returns (s: State, e: Event)
    ensures Reachable(s) && Enabled(s, e) && s.current.None? && AsksFor(s, e, 0) && Renewed(s, 0)
  {
    var w := WindowState();
    var resumed := Step(w, Resumed(1));
    Next(w, Resumed(1), resumed);
    assert resumed.current == Some(1) && resumed.inFlightRefresh.None? && resumed.runs[1] == Calling(0, []);
    assert resumed.requests[1].kind == Refresh(0) && resumed.requests[1].answer == Some(Issued(1))
           && 2 !in resumed.runs;
    s := DropsSession(resumed, 2);
    e := CallbackFailed(1, RETRYABLE);
    assert RenewedBy(s, 1, 0);
    RefreshAsksForCurrent(s, e, 0);
  }

  /**
   A new run calls with the current session and fails; the refresh is refused, and the session dropped for a login.
   */
  lemma DropsSession(s: State, r: RunId) returns (t: State)
    requires Reachable(s) && s.current.Some? && s.inFlightRefresh.None? && r !in s.runs
    ensures Reachable(t) && t.current.None? && t.inFlightRefresh.None? && s.requests <= t.requests
    ensures forall x :: x in s.runs && s.runs[x].pc == InCallback ==> x in t.runs && t.runs[x] == s.runs[x]
  {
    var session, id := s.current.value, |s.requests|;
    Joins(s, r);
    var joined := s.(runs := s.runs[r := Calling(session, [])]);
    Fails(joined, r, session, []);
    var refreshing := Refreshing(joined, r, session, []);
    Clears(refreshing, id, Some(Error(false, true)));
    var cleared := Cleared(refreshing, id, Refused(Error(false, true)));
    assert cleared.requests[..id] == s.requests;
    t := GivesUp(cleared, r, session, id);
  }

  /** The refusal reaches the run that refreshed. */
  lemma GivesUp(s: State, r: RunId, session: Sid, id: nat) returns (t: State)
    requires Reachable(s) && s.current == Some(session) && s.inFlightRefresh.None? && id < |s.requests|
    requires s.requests[id] == Request(Refresh(session), Some(Refused(Error(false, true))), true, false)
    requires r in s.runs && s.runs[r].pc == AwaitRefresh(id, Recovery(session))
    ensures Reachable(t) && t.current.None? && t.inFlightRefresh.None? && s.requests[..id] <= t.requests
    ensures forall x :: x in s.runs && s.runs[x].pc == InCallback ==> x in t.runs && t.runs[x] == s.runs[x]
  {
    var errored := ResumesRefused(s, r, session, id);
    t := Drops(errored, r, session);
  }

  lemma ResumesRefused(s: State, r: RunId, session: Sid, id: nat) returns (t: State)
    requires Reachable(s) && s.current == Some(session) && s.inFlightRefresh.None? && id < |s.requests|
    requires s.requests[id] == Request(Refresh(session), Some(Refused(Error(false, true))), true, false)
    requires r in s.runs && s.runs[r].pc == AwaitRefresh(id, Recovery(session))
    ensures Reachable(t) && t.current == Some(session) && t.inFlightRefresh.None? && s.requests[..id] <= t.requests
    ensures r in t.runs && t.runs[r].pc == Errored(Error(false, true), Recovery(session))
    ensures forall x :: x in s.runs && s.runs[x].pc == InCallback ==> x in t.runs && t.runs[x] == s.runs[x]
  {
    t := Step(s, Resumed(id));
    Next(s, Resumed(id), t);
    assert t.requests[..id] == s.requests[..id];
  }

  lemma Drops(s: State, r: RunId, session: Sid) returns (t: State)
    requires Reachable(s) && s.current == Some(session) && s.inFlightRefresh.None?
    requires r in s.runs && s.runs[r].pc == Errored(Error(false, true), Recovery(session))
    ensures Reachable(t) && t.current.None? && t.inFlightRefresh.None? && s.requests <= t.requests
    ensures forall x :: x in s.runs && s.runs[x].pc == InCallback ==> x in t.runs && t.runs[x] == s.runs[x]
  {
    t := EnsureSession(SetCurrent(s, None), r, Relogin);
    Next(s, Continue(r, false), t);
    Relogs(SetCurrent(s, None), r);
  }

  lemma Relogs(s: State, r: RunId)
    requires r in s.runs && s.current.None? && s.runs[r].pc != InCallback
    ensures var t := EnsureSession(s, r, Relogin);
      && t.current.None? && t.inFlightRefresh == s.inFlightRefresh && s.requests <= t.requests
      && (forall x :: x in s.runs && s.runs[x].pc == InCallback ==> x in t.runs && t.runs[x] == s.runs[x])
  {
  }
}
