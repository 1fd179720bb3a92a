/** Where each step takes a run of the session runner: when it calls back, with which session, and when it fails. */
module SessionEffects {
  import opened Wrappers
  import opened SessionSpec
  import opened SessionSafety

  /** The run whose code a step executes. */
  function Mover(e: Event): Option<RunId> {
    match e
    case Start(r) => Some(r)
    case Continue(r, _) => Some(r)
    case CallbackReturned(r) => Some(r)
    case CallbackFailed(r, _) => Some(r)
    case _ => None
  }

  /** A step moves the run whose code it executes, or those that await the request it resumes, and no other. */
  lemma OthersStand(s: State, e: Event, r: RunId)
    requires Enabled(s, e) && r in s.runs && Mover(e) != Some(r)
    requires e.Resumed? ==>
             !(s.runs[r].pc.AwaitLogin? && s.runs[r].pc.request == e.request)
             && !(s.runs[r].pc.AwaitRefresh? && s.runs[r].pc.request == e.request)
    ensures r in Step(s, e).runs && Step(s, e).runs[r] == s.runs[r]
  {
    match e
    case Continue(x, _) => match s.runs[x].pc { case Errored(_, _) => case _ => }
    case _ =>
  }

  // ---------- calling back ----------

  /** The session the callback is called with, if the step calls it. */
  function CallOf(s: State, e: Event): Option<Sid>
    requires Enabled(s, e)
  {
    match e
    case Continue(r, _) =>
      (match s.runs[r].pc
       case HasFresh(session, _) => Some(session)
       case HasSession(session, Relogin) => Some(session)
       case _ => None)
    case _ => None
  }

  /**
   A run calls back exactly when it has a session that is fresh, or that a new login brought, and with that session.
   */
  lemma CallsExactly(s: State, e: Event, r: RunId)
    requires Enabled(s, e) && r in s.runs
    ensures r in Step(s, e).runs
    ensures var t := Step(s, e);
      if Mover(e) == Some(r) && CallOf(s, e).Some? then
        && t.runs[r].calls == s.runs[r].calls + [CallOf(s, e).value]
        && t.runs[r].pc == InCallback && t.requests == s.requests && t.current == s.current
      else t.runs[r].calls == s.runs[r].calls
  {
    if e.Continue? {
      ContinueCalls(s, e.run, e.expiring, r);
    }
  }

  lemma ContinueCalls(s: State, x: RunId, expiring: bool, r: RunId)
    requires Enabled(s, Continue(x, expiring)) && r in s.runs
    ensures r in ContinueStep(s, x, expiring).runs
    ensures var t, call := ContinueStep(s, x, expiring), CallOf(s, Continue(x, expiring));
      if x == r && call.Some? then
        && t.runs[r].calls == s.runs[r].calls + [call.value]
        && t.runs[r].pc == InCallback && t.requests == s.requests && t.current == s.current
      else t.runs[r].calls == s.runs[r].calls
  {
    match s.runs[x].pc {
      case Errored(_, _) =>
      case _ =>
    }
  }

  /**
   A run that would refresh a session another run has renewed goes on with the current one: it sends
   nothing, all it can do next is to continue, and that calls back with the current session.
   */
  lemma RenewedRunCallsBack(s: State, e: Event, x: Sid, y: Sid, expiring: bool)
    requires Enabled(s, e) && RefreshCall(s, e) == Some(x) && s.current == Some(y) && y != x
    ensures Mover(e).Some?
    ensures var r, t := Mover(e).value, Step(s, e);
      && r in s.runs && r in t.runs && t.requests == s.requests && t.current == s.current
      && t.runs[r].calls == s.runs[r].calls
      && (forall later :: Enabled(t, later) && Mover(later) == Some(r) ==> later.Continue?)
      && Enabled(t, Continue(r, expiring))
      && var u := Step(t, Continue(r, expiring));
         r in u.runs && u.runs[r].calls == s.runs[r].calls + [y] && u.runs[r].pc == InCallback
  {
    var r, t := Mover(e).value, Step(s, e);
    assert r in t.runs && t.runs[r].pc.HasFresh? && t.runs[r].pc.session == y;
  }

  /** Otherwise it awaits the refresh under way, or a new one for that session. */
  lemma RefreshIsAwaited(s: State, e: Event, x: Sid)
    requires Inv(s) && Enabled(s, e) && RefreshCall(s, e) == Some(x) && (s.current.None? || s.current == Some(x))
    ensures Mover(e).Some?
    ensures var r, t := Mover(e).value, Step(s, e);
      && r in t.runs && t.runs[r].pc.AwaitRefresh? && t.inFlightRefresh == Some(t.runs[r].pc.request)
      && t.current == s.current && t.runs[r].calls == s.runs[r].calls
      && var id := t.runs[r].pc.request;
         && id < |t.requests| && t.requests[id].kind.Refresh? && !t.requests[id].cleared
         && (if s.inFlightRefresh.Some? then id == s.inFlightRefresh.value && t.requests == s.requests
             else id == |s.requests| && t.requests == s.requests + [Request(Refresh(x), None, false, false)])
  {
    match e
    case Continue(r, _) => match s.runs[r].pc { case Errored(_, _) => case _ => }
    case _ =>
  }

  // ---------- logging in ----------

  /** The step asks ensureSession for a session. */
  predicate NeedsSession(s: State, e: Event)
    requires Enabled(s, e)
  {
    match e
    case Start(_) => true
    case Continue(r, _) =>
      (match s.runs[r].pc
       case Errored(error, First) => error.refreshable && !s.runs[r].recovered && s.current.None?
       case Errored(error, Recovery(_)) => error.unauthorized
       case _ => false)
    case _ => false
  }

  /** A refused refresh with status 401 drops the session it was for, if that is still current. */
  function Known(s: State, e: Event): Option<Sid>
    requires Enabled(s, e)
  {
    if e.Continue? && s.runs[e.run].pc.Errored? && s.runs[e.run].pc.stage.Recovery?
      && s.runs[e.run].pc.error.unauthorized
       && s.current == Some(s.runs[e.run].pc.stage.source)
    then None else s.current
  }

  /** Then the run has the session that is current, or awaits the login under way, or a new one. */
  lemma SessionIsEnsured(s: State, e: Event)
    requires Inv(s) && Enabled(s, e) && NeedsSession(s, e)
    ensures Mover(e).Some?
    ensures var r, t := Mover(e).value, Step(s, e);
      && r in t.runs && t.current == Known(s, e)
      && if t.current.Some? then t.runs[r].pc.HasSession? && t.runs[r].pc.session == t.current.value
         && t.requests == s.requests
         else
           && t.runs[r].pc.AwaitLogin? && t.inFlightLogin == Some(t.runs[r].pc.request)
           && var id := t.runs[r].pc.request;
              && id < |t.requests| && t.requests[id].kind.Login? && !t.requests[id].resumed
              && (if s.inFlightLogin.Some? then id == s.inFlightLogin.value && t.requests == s.requests
                  else id == |s.requests| && t.requests == s.requests + [Request(Login, None, false, false)])
  {
  }

  /** A session that needs no refresh is fresh. */
  lemma FreshGoesOn(s: State, r: RunId, session: Sid)
    requires Enabled(s, Continue(r, false)) && s.runs[r].pc == HasSession(session, First)
    ensures var t := Step(s, Continue(r, false)); t == s.(runs := t.runs) && t.runs[r].pc == HasFresh(session, First)
  {
  }

  // ---------- the end of a run ----------

  /** An error the run does not recover from. */
  predicate IsFatal(run: Run, error: Error, stage: Stage) {
    match stage
    case First => !error.refreshable || run.recovered
    case Recovery(_) => !error.unauthorized
    case _ => true
  }

  /**
   A run fails exactly when its callback fails with an error that is not refreshable, or after its
   recovery has been used; or when what it awaited ended with such an error, with a refused refresh
   in recovery that is no 401, or with a refused login in recovery.
   */
  lemma FailsExactly(s: State, e: Event, r: RunId)
    requires Enabled(s, e) && r in s.runs && !s.runs[r].pc.Finished?
    ensures Step(s, e).runs[r].pc == Finished(false) <==>
            || (e.CallbackFailed? && e.run == r && (!e.error.refreshable || s.runs[r].recovered))
            || (e.Continue? && e.run == r && s.runs[r].pc.Errored?
                && IsFatal(s.runs[r], s.runs[r].pc.error, s.runs[r].pc.stage))
    ensures Step(s, e).runs[r].pc == Finished(true) <==> e == CallbackReturned(r)
  {
    match e
    case Continue(x, _) => match s.runs[x].pc { case Errored(_, _) => case _ => }
    case _ =>
  }

  // ---------- requests ----------

  /** Whoever awaits a request goes on with its answer, at the stage it awaited it; a new session becomes current. */
  lemma ResumesExactly(s: State, id: nat, r: RunId)
    requires Enabled(s, Resumed(id)) && r in s.runs
    ensures var t := Step(s, Resumed(id)); var pc, a := s.runs[r].pc, s.requests[id].answer.value;
      && r in t.runs && t.runs[r] == s.runs[r].(pc := t.runs[r].pc)
      && (pc.AwaitLogin? && pc.request == id ==>
            t.runs[r].pc == if a.Issued? then HasSession(a.session, pc.stage) else Errored(a.error, pc.stage))
      && (pc.AwaitRefresh? && pc.request == id ==>
            t.runs[r].pc == if a.Issued? then HasFresh(a.session, pc.stage) else Errored(a.error, pc.stage))
      && t.current == (if a.Issued? then Some(a.session) else s.current)
      && t.inFlightRefresh == s.inFlightRefresh && (s.requests[id].kind.Login? ==> t.inFlightLogin.None?)
      && t.requests == s.requests[id := s.requests[id].(resumed := true)]
  {
  }

  /** The server's answer is what the request gets; a new session has a number of its own. */
  lemma AnswersExactly(s: State, id: nat, refusal: Option<Error>)
    requires Enabled(s, Answered(id, refusal))
    ensures var t := Step(s, Answered(id, refusal)); var a := t.requests[id].answer;
      && t == s.(requests := t.requests, issued := t.issued)
      && t.requests == s.requests[id := s.requests[id].(answer := a)] && a.Some?
      && (refusal.Some? ==> a == Some(Refused(refusal.value)) && t.issued == s.issued)
      && (refusal.None? ==> a.value.Issued? && a.value.session == s.issued < t.issued)
  {
  }

  /** The current session changes only when a request is resumed, or when it is dropped after a refused refresh. */
  lemma CurrentChangesExactly(s: State, e: Event)
    requires Enabled(s, e) && Step(s, e).current != s.current
    ensures || (e.Resumed? && s.requests[e.request].answer.value.Issued?
                && Step(s, e).current == Some(s.requests[e.request].answer.value.session))
            || (NeedsSession(s, e) && Step(s, e).current.None? && Known(s, e).None?)
  {
    match e
    case Continue(x, _) => match s.runs[x].pc { case Errored(_, _) => case _ => }
    case _ =>
  }
}
