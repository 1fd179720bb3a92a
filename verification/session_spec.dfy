/**
 The session runner shared by concurrent runs: one cached session, single-flight login and
 refresh, and a run that recovers once when its session is refused.

 A step is a stretch of code between two awaits.  The continuations of one settled promise run
 as one batch.  Sessions are numbered as the server issues them, requests as they are sent.
 Errors carry the two facts the code asks about.
 */
module SessionSpec {
  import opened Wrappers

  type Sid = nat
  type RunId = nat

  datatype Error = Error(refreshable: bool, unauthorized: bool)

  /** The server's answer to a login or refresh request. */
  datatype Answer = Issued(session: Sid) | Refused(error: Error)

  /** What is asked for: a login, or a new session in place of one that is still known. */
  datatype Kind = Login | Refresh(source: Sid)

  /** `cleared`: the finally of a refresh has run.  `resumed`: the continuations of its waiters have run. */
  datatype Request = Request(kind: Kind, answer: Option<Answer>, cleared: bool, resumed: bool)

  /** Which part of a run an await belongs to; a refresh in recovery remembers what it refreshes. */
  datatype Stage = First | Source | Recovery(source: Sid) | Relogin

  datatype Pc =
    | AwaitLogin(request: nat, stage: Stage)
    | AwaitRefresh(request: nat, stage: Stage)
    | HasSession(session: Sid, stage: Stage)  // ensureSession has returned
    | HasFresh(session: Sid, stage: Stage)    // refreshSession, or the freshness check, has returned
    | Errored(error: Error, stage: Stage)
    | InCallback
    | Finished(ok: bool)

  /**
   `calls` lists the sessions the callback was called with; the first one is attemptedSession.
   `recovered` is reactiveRefreshUsed.  `asked` records at which stages the run itself sent a request.
   */
  datatype Run = Run(pc: Pc, calls: seq<Sid>, recovered: bool, asked: seq<Stage>)

  datatype State = State(current: Option<Sid>, inFlightLogin: Option<nat>, inFlightRefresh: Option<nat>,
                         requests: seq<Request>, runs: map<RunId, Run>,
                         issued: nat,      // sessions the server has issued so far
                         past: set<Sid>)   // sessions that were current and are not any more

  const NEW_RUN := Run(InCallback, [], false, [])

  const INITIAL := State(None, None, None, [], map[], 0, {})

  function Goto(s: State, r: RunId, pc: Pc): State
    requires r in s.runs
  {
    s.(runs := s.runs[r := s.runs[r].(pc := pc)])
  }

  /** The current session is replaced, or dropped. */
  function SetCurrent(s: State, session: Option<Sid>): State {
    s.(current := session, past := if s.current.Some? then s.past + {s.current.value} else s.past)
  }

  /** A run sends a request. */
  function Ask(s: State, r: RunId, kind: Kind, stage: Stage): State
    requires r in s.runs
  {
    s.(requests := s.requests + [Request(kind, None, false, false)],
       inFlightLogin := if kind.Login? then Some(|s.requests|) else s.inFlightLogin,
       inFlightRefresh := if kind.Refresh? then Some(|s.requests|) else s.inFlightRefresh,
       runs := s.runs[r := s.runs[r].(asked := s.runs[r].asked + [stage])])
  }

  function EnsureSession(s: State, r: RunId, stage: Stage): State
    requires r in s.runs
  {
    if s.current.Some? then Goto(s, r, HasSession(s.current.value, stage))
    else if s.inFlightLogin.Some? then Goto(s, r, AwaitLogin(s.inFlightLogin.value, stage))
    else Goto(Ask(s, r, Login, stage), r, AwaitLogin(|s.requests|, stage))
  }

  function RefreshSession(s: State, r: RunId, session: Sid, stage: Stage): State
    requires r in s.runs
  {
    if s.current.Some? && s.current.value != session then Goto(s, r, HasFresh(s.current.value, stage))
    else if s.inFlightRefresh.Some? then Goto(s, r, AwaitRefresh(s.inFlightRefresh.value, stage))
    else Goto(Ask(s, r, Refresh(session), stage), r, AwaitRefresh(|s.requests|, stage))
  }

  function Call(s: State, r: RunId, session: Sid): State
    requires r in s.runs
  {
    s.(runs := s.runs[r := s.runs[r].(pc := InCallback, calls := s.runs[r].calls + [session])])
  }

  /** A run recovers, which it does once. */
  function Recovering(s: State, r: RunId): State
    requires r in s.runs
  {
    s.(runs := s.runs[r := s.runs[r].(recovered := true)])
  }

  /** The catch block of a run: what to do about an error that came out of an await. */
  function Recover(s: State, r: RunId, error: Error, stage: Stage): State
    requires r in s.runs
  {
    match stage
    case First =>
      if !error.refreshable || s.runs[r].recovered then Goto(s, r, Finished(false))
      else if s.current.Some? then RefreshSession(Recovering(s, r), r, s.current.value, Recovery(s.current.value))
      else EnsureSession(Recovering(s, r), r, Source)
    case Recovery(source) =>
      if !error.unauthorized then Goto(s, r, Finished(false))
      else EnsureSession(if s.current == Some(source) then SetCurrent(s, None) else s, r, Relogin)
    case _ => Goto(s, r, Finished(false))
  }

  // ---------- the events ----------

  datatype Event =
    | Start(run: RunId)
    | Continue(run: RunId, expiring: bool)
    | Answered(request: nat, refusal: Option<Error>)
    | Cleared(request: nat)
    | Resumed(request: nat)
    | CallbackReturned(run: RunId)
    | CallbackFailed(run: RunId, error: Error)

  predicate Enabled(s: State, e: Event) {
    match e
    case Start(r) => r !in s.runs
    case Continue(r, _) =>
      r in s.runs && (s.runs[r].pc.HasSession? || s.runs[r].pc.HasFresh? || s.runs[r].pc.Errored?)
    case Answered(id, _) => id < |s.requests| && s.requests[id].answer.None?
    case Cleared(id) =>
      id < |s.requests| && s.requests[id].kind.Refresh? && s.requests[id].answer.Some? && !s.requests[id].cleared
    case Resumed(id) =>
      && id < |s.requests| && s.requests[id].answer.Some? && !s.requests[id].resumed
      && (s.requests[id].kind.Login? || s.requests[id].cleared)
    case CallbackReturned(r) => r in s.runs && s.runs[r].pc.InCallback?
    case CallbackFailed(r, _) => r in s.runs && s.runs[r].pc.InCallback? && s.runs[r].calls != []
  }

  function ContinueStep(s: State, r: RunId, expiring: bool): State
    requires Enabled(s, Continue(r, expiring))
  {
    match s.runs[r].pc
    case HasSession(session, First) =>
      if expiring then RefreshSession(s, r, session, First) else Goto(s, r, HasFresh(session, First))
    case HasSession(session, Relogin) => Call(s, r, session)
    case HasSession(session, _) => RefreshSession(s, r, session, Recovery(session))
    case HasFresh(session, _) => Call(s, r, session)
    case Errored(error, stage) => Recover(s, r, error, stage)
  }

  /** Where a run goes when the request it awaits is resumed. */
  function Wake(run: Run, id: nat, answer: Answer): Run {
    match run.pc
    case AwaitLogin(i, stage) =>
      if i != id then run
      else run.(pc := if answer.Issued? then HasSession(answer.session, stage) else Errored(answer.error, stage))
    case AwaitRefresh(i, stage) =>
      if i != id then run
      else run.(pc := if answer.Issued? then HasFresh(answer.session, stage) else Errored(answer.error, stage))
    case _ => run
  }

  function ResumeStep(s: State, id: nat): State
    requires Enabled(s, Resumed(id))
  {
    var q := s.requests[id];
    var answer := q.answer.value;
    var updated := if answer.Issued? then SetCurrent(s, Some(answer.session)) else s;
    updated.(inFlightLogin := if q.kind.Login? then None else s.inFlightLogin,
              requests := s.requests[id := q.(resumed := true)],
              runs := map r | r in s.runs :: Wake(s.runs[r], id, answer))
  }

  function Step(s: State, e: Event): State
    requires Enabled(s, e)
  {
    match e
    case Start(r) => EnsureSession(s.(runs := s.runs[r := NEW_RUN]), r, First)
    case Continue(r, expiring) => ContinueStep(s, r, expiring)
    case Answered(id, error) =>
      var answer := if error.Some? then Refused(error.value) else Issued(s.issued);
      s.(requests := s.requests[id := s.requests[id].(answer := Some(answer))],
         issued := if error.Some? then s.issued else s.issued + 1)
    case Cleared(id) =>
      s.(inFlightRefresh := None, requests := s.requests[id := s.requests[id].(cleared := true)])
    case Resumed(id) => ResumeStep(s, id)
    case CallbackReturned(r) => Goto(s, r, Finished(true))
    case CallbackFailed(r, error) =>
      if !error.refreshable || s.runs[r].recovered then Goto(s, r, Finished(false))
      else RefreshSession(Recovering(s, r), r, s.runs[r].calls[0], Recovery(s.runs[r].calls[0]))
  }
}
