/** Safety of the session runner, over every interleaving of its runs. */
module SessionSafety {
  import opened Wrappers
  import opened SessionSpec

  /** Every session that is or was current. */
  ghost function Seen(s: State): set<Sid> {
    if s.current.Some? then s.past + {s.current.value} else s.past
  }

  /** The variables inFlightLogin and inFlightRefresh are what makes the requests single-flight. */
  ghost predicate SingleFlight(s: State) {
    && (forall i :: 0 <= i < |s.requests| && s.requests[i].kind.Login? && !s.requests[i].resumed ==>
        s.inFlightLogin == Some(i))
    && (forall i :: 0 <= i < |s.requests| && s.requests[i].kind.Refresh? && !s.requests[i].cleared ==>
        s.inFlightRefresh == Some(i))
    && (s.inFlightLogin.Some? ==>
          var i := s.inFlightLogin.value; i < |s.requests| && s.requests[i].kind.Login? && !s.requests[i].resumed)
    && (s.inFlightRefresh.Some? ==>
          var i := s.inFlightRefresh.value; i < |s.requests| && s.requests[i].kind.Refresh? && !s.requests[i].cleared)
    && (forall i :: 0 <= i < |s.requests| ==>
          var q := s.requests[i];
          (q.cleared || q.resumed ==> q.answer.Some?) && (q.kind.Refresh? && q.resumed ==> q.cleared))
  }

  /** An answer nobody has seen yet is new: it is no session that is or was current. */
  ghost predicate FreshAnswers(s: State) {
    && (forall i :: 0 <= i < |s.requests| && s.requests[i].answer.Some? && s.requests[i].answer.value.Issued? ==>
          && s.requests[i].answer.value.session < s.issued
          && (!s.requests[i].resumed ==> s.requests[i].answer.value.session !in Seen(s)))
    && (forall i, j :: 0 <= i < j < |s.requests| && s.requests[i].answer.Some? && s.requests[j].answer.Some? ==>
          s.requests[i].answer.value.Issued? ==> s.requests[i].answer != s.requests[j].answer)
    && (forall x :: x in Seen(s) ==> x < s.issued)
    && (s.current.Some? ==> s.current.value !in s.past)
  }

  ghost predicate AwaitOk(requests: seq<Request>, id: nat, login: bool) {
    id < |requests| && requests[id].kind.Login? == login && !requests[id].resumed
  }

  ghost predicate RunOk(run: Run, requests: seq<Request>, seen: set<Sid>) {
    && |run.calls| <= 2
    && (|run.calls| == 2 ==> run.calls[0] != run.calls[1])
    && (forall x :: x in run.calls ==> x in seen)
    && match run.pc
       case AwaitLogin(id, stage) => AwaitOk(requests, id, true) && EnsureStage(run, stage)
       case AwaitRefresh(id, stage) => AwaitOk(requests, id, false) && RefreshStage(run, stage, seen)
       case HasSession(session, stage) =>
         session in seen && EnsureStage(run, stage) && (stage.Relogin? && run.calls != [] ==> session != run.calls[0])
       case HasFresh(session, stage) =>
         session in seen && RefreshStage(run, stage, seen) && (stage.Recovery? ==> session != stage.source)
       case Errored(_, stage) => EnsureStage(run, stage) || RefreshStage(run, stage, seen)
       case InCallback => run.calls != [] && (!run.recovered ==> |run.calls| == 1)
       case Finished(_) => true
  }

  ghost predicate EnsureStage(run: Run, stage: Stage) {
    !stage.Recovery? && (stage.First? <==> !run.recovered)
      && (if stage.Relogin? then |run.calls| <= 1 else run.calls == [])
  }

  ghost predicate RefreshStage(run: Run, stage: Stage, seen: set<Sid>) {
    || (stage.First? && !run.recovered && run.calls == [])
    || (stage.Recovery? && run.recovered && |run.calls| <= 1 && stage.source in seen
        && (run.calls != [] ==> run.calls[0] == stage.source))
  }

  ghost predicate RunsOk(s: State) {
    forall r :: r in s.runs ==> RunOk(s.runs[r], s.requests, Seen(s))
  }

  /** What keeps the requests single-flight, the answers fresh and the runs well-behaved. */
  ghost predicate Core(s: State) {
    SingleFlight(s) && FreshAnswers(s) && RunsOk(s)
  }

  /** A run stays as it should be when requests are added or answered and sessions are seen. */
  lemma RunStays(run: Run, requests: seq<Request>, seen: set<Sid>, requests': seq<Request>, seen': set<Sid>)
    requires RunOk(run, requests, seen)
    requires seen <= seen' && |requests| <= |requests'|
    requires forall i :: 0 <= i < |requests| ==>
      requests'[i].kind == requests[i].kind && requests'[i].resumed == requests[i].resumed
    ensures RunOk(run, requests', seen')
  {
  }

  /** All runs but one are as they should be. */
  ghost predicate OthersOk(s: State, r: RunId) {
    forall x :: x in s.runs && x != r ==> RunOk(s.runs[x], s.requests, Seen(s))
  }

  lemma GotoKeeps(s: State, r: RunId, pc: Pc)
    requires r in s.runs && SingleFlight(s) && FreshAnswers(s) && OthersOk(s, r)
    requires RunOk(s.runs[r].(pc := pc), s.requests, Seen(s))
    ensures Core(Goto(s, r, pc))
  {
    var t := Goto(s, r, pc);
    assert t.requests == s.requests && Seen(t) == Seen(s);
    forall x | x in t.runs ensures RunOk(t.runs[x], t.requests, Seen(t)) {
      assert t.runs[x] == if x == r then s.runs[r].(pc := pc) else s.runs[x];
    }
  }

  lemma AskKeeps(s: State, r: RunId, kind: Kind, stage: Stage)
    requires r in s.runs && SingleFlight(s) && FreshAnswers(s) && OthersOk(s, r)
    requires if kind.Login? then s.inFlightLogin.None? else s.inFlightRefresh.None?
    ensures SingleFlight(Ask(s, r, kind, stage)) && FreshAnswers(Ask(s, r, kind, stage))
            && OthersOk(Ask(s, r, kind, stage), r)
  {
    var t := Ask(s, r, kind, stage);
    AskKeepsFlight(s, r, kind, stage);
    AskKeepsAnswers(s, r, kind, stage);
    forall x | x in t.runs && x != r ensures RunOk(t.runs[x], t.requests, Seen(t)) {
      RunStays(s.runs[x], s.requests, Seen(s), t.requests, Seen(t));
    }
  }

  lemma AskKeepsFlight(s: State, r: RunId, kind: Kind, stage: Stage)
    requires r in s.runs && SingleFlight(s) && if kind.Login? then s.inFlightLogin.None? else s.inFlightRefresh.None?
    ensures SingleFlight(Ask(s, r, kind, stage))
  {
  }

  lemma AskKeepsAnswers(s: State, r: RunId, kind: Kind, stage: Stage)
    requires r in s.runs && FreshAnswers(s)
    ensures FreshAnswers(Ask(s, r, kind, stage))
  {
    assert Seen(Ask(s, r, kind, stage)) == Seen(s);
  }

  lemma EnsureSessionKeeps(s: State, r: RunId, stage: Stage)
    requires r in s.runs && SingleFlight(s) && FreshAnswers(s) && OthersOk(s, r)
    requires EnsureStage(s.runs[r], stage)
    requires forall x :: x in s.runs[r].calls ==> x in Seen(s)
    requires stage.Relogin? && s.runs[r].calls != [] && s.current.Some? ==> s.current.value != s.runs[r].calls[0]
    ensures Core(EnsureSession(s, r, stage))
  {
    if s.current.Some? {
      GotoKeeps(s, r, HasSession(s.current.value, stage));
    } else if s.inFlightLogin.Some? {
      GotoKeeps(s, r, AwaitLogin(s.inFlightLogin.value, stage));
    } else {
      AskKeeps(s, r, Login, stage);
      GotoKeeps(Ask(s, r, Login, stage), r, AwaitLogin(|s.requests|, stage));
    }
  }

  lemma RefreshSessionKeeps(s: State, r: RunId, session: Sid, stage: Stage)
    requires r in s.runs && SingleFlight(s) && FreshAnswers(s) && OthersOk(s, r)
    requires session in Seen(s) && RefreshStage(s.runs[r], stage, Seen(s))
             && (stage.Recovery? ==> stage.source == session)
    requires forall x :: x in s.runs[r].calls ==> x in Seen(s)
    ensures Core(RefreshSession(s, r, session, stage))
  {
    if s.current.Some? && s.current.value != session {
      GotoKeeps(s, r, HasFresh(s.current.value, stage));
    } else if s.inFlightRefresh.Some? {
      GotoKeeps(s, r, AwaitRefresh(s.inFlightRefresh.value, stage));
    } else {
      AskKeeps(s, r, Refresh(session), stage);
      GotoKeeps(Ask(s, r, Refresh(session), stage), r, AwaitRefresh(|s.requests|, stage));
    }
  }

  lemma CallKeeps(s: State, r: RunId, session: Sid)
    requires Core(s) && r in s.runs && session in Seen(s) && |s.runs[r].calls| <= 1
    requires s.runs[r].calls != [] ==> session != s.runs[r].calls[0] && s.runs[r].recovered
    ensures Core(Call(s, r, session))
  {
    var t := Call(s, r, session);
    assert Seen(t) == Seen(s);
    forall x | x in t.runs ensures RunOk(t.runs[x], t.requests, Seen(t)) {
      assert RunOk(s.runs[x], s.requests, Seen(s));
    }
  }

  lemma ContinueKeeps(s: State, r: RunId, expiring: bool)
    requires Core(s) && Enabled(s, Continue(r, expiring))
    ensures Core(ContinueStep(s, r, expiring))
  {
    assert RunOk(s.runs[r], s.requests, Seen(s));
    match s.runs[r].pc
    case HasSession(session, First) => if expiring { RefreshSessionKeeps(s, r, session, First); }
    case HasSession(session, Relogin) => CallKeeps(s, r, session);
    case HasSession(session, stage) => RefreshSessionKeeps(s, r, session, Recovery(session));
    case HasFresh(session, _) => CallKeeps(s, r, session);
    case Errored(error, stage) => RecoverKeeps(s, r, error, stage);
  }

  lemma RecoveringKeeps(s: State, r: RunId)
    requires Core(s) && r in s.runs
    ensures var t := Recovering(s, r); SingleFlight(t) && FreshAnswers(t) && OthersOk(t, r) && Seen(t) == Seen(s)
  {
    var t := Recovering(s, r);
    assert Seen(t) == Seen(s);
    forall x | x in t.runs && x != r ensures RunOk(t.runs[x], t.requests, Seen(t)) {
      assert RunOk(s.runs[x], s.requests, Seen(s));
    }
  }

  /** A run ends. */
  lemma FinishKeeps(s: State, r: RunId)
    requires Core(s) && r in s.runs
    ensures Core(Goto(s, r, Finished(false)))
  {
    assert RunOk(s.runs[r], s.requests, Seen(s));
    GotoKeeps(s, r, Finished(false));
  }

  lemma ReloginKeeps(s: State, r: RunId, error: Error, source: Sid)
    requires Core(s) && r in s.runs && s.runs[r].pc == Errored(error, Recovery(source)) && error.unauthorized
    ensures Core(Recover(s, r, error, Recovery(source)))
  {
    assert RunOk(s.runs[r], s.requests, Seen(s));
    var t := if s.current == Some(source) then SetCurrent(s, None) else s;
    assert Seen(t) == Seen(s);
    EnsureSessionKeeps(t, r, Relogin);
  }

  lemma FirstRecoveryKeeps(s: State, r: RunId, error: Error)
    requires Core(s) && r in s.runs && s.runs[r].pc == Errored(error, First)
    requires error.refreshable && !s.runs[r].recovered
    ensures Core(Recover(s, r, error, First))
  {
    assert RunOk(s.runs[r], s.requests, Seen(s));
    RecoveringKeeps(s, r);
    if s.current.Some? {
      RefreshSessionKeeps(Recovering(s, r), r, s.current.value, Recovery(s.current.value));
    } else {
      EnsureSessionKeeps(Recovering(s, r), r, Source);
    }
  }

  lemma RecoverKeeps(s: State, r: RunId, error: Error, stage: Stage)
    requires Core(s) && r in s.runs && s.runs[r].pc == Errored(error, stage)
    ensures Core(Recover(s, r, error, stage))
  {
    FinishKeeps(s, r);
    match stage
    case First =>
      if error.refreshable && !s.runs[r].recovered {
        FirstRecoveryKeeps(s, r, error);
      }
    case Recovery(source) =>
      if error.unauthorized {
        ReloginKeeps(s, r, error, source);
      }
    case _ =>
  }

  /** Only the waiters of a request move when it is resumed, and what they get is new to them. */
  lemma ResumeKeeps(s: State, id: nat)
    requires Core(s) && Enabled(s, Resumed(id))
    ensures Core(ResumeStep(s, id))
  {
    var t := ResumeStep(s, id);
    var answer := s.requests[id].answer.value;
    assert Seen(t) == if answer.Issued? then Seen(s) + {answer.session} else Seen(s);
    assert SingleFlight(t) && FreshAnswers(t);
    forall r | r in t.runs ensures RunOk(t.runs[r], t.requests, Seen(t)) {
      WakeKeeps(s, id, r);
    }
  }

  /** A run that awaits the request goes on as it should; the others stay as they are. */
  lemma WakeKeeps(s: State, id: nat, r: RunId)
    requires Core(s) && Enabled(s, Resumed(id)) && r in s.runs
    ensures var t := ResumeStep(s, id); RunOk(t.runs[r], t.requests, Seen(t))
  {
    assert RunOk(s.runs[r], s.requests, Seen(s));
  }

  lemma StartKeeps(s: State, r: RunId)
    requires Core(s) && Enabled(s, Start(r))
    ensures Core(Step(s, Start(r)))
  {
    var t := s.(runs := s.runs[r := NEW_RUN]);
    assert Seen(t) == Seen(s);
    forall x | x in t.runs && x != r ensures RunOk(t.runs[x], t.requests, Seen(t)) {
      assert RunOk(s.runs[x], s.requests, Seen(s));
    }
    EnsureSessionKeeps(t, r, First);
  }

  /** Requests are answered and cleared behind the runs' backs. */
  lemma AnswerKeeps(s: State, e: Event)
    requires Core(s) && Enabled(s, e) && (e.Answered? || e.Cleared?)
    ensures Core(Step(s, e))
  {
    var t := Step(s, e);
    var id := e.request;
    assert Seen(t) == Seen(s) && t.requests[id].kind == s.requests[id].kind;
    assert forall i :: 0 <= i < |s.requests| && i != id ==> t.requests[i] == s.requests[i];
    assert FreshAnswers(t) by {
      if e.Answered? {
        assert s.issued !in Seen(s);
      }
    }
    forall r | r in t.runs ensures RunOk(t.runs[r], t.requests, Seen(t)) {
      assert RunOk(s.runs[r], s.requests, Seen(s));
      RunStays(s.runs[r], s.requests, Seen(s), t.requests, Seen(t));
    }
  }

  lemma CallbackFailedKeeps(s: State, r: RunId, error: Error)
    requires Core(s) && Enabled(s, CallbackFailed(r, error))
    ensures Core(Step(s, CallbackFailed(r, error)))
  {
    assert RunOk(s.runs[r], s.requests, Seen(s));
    if !s.runs[r].recovered && error.refreshable {
      assert s.runs[r].calls[0] in Seen(s);
      RecoveringKeeps(s, r);
      RefreshSessionKeeps(Recovering(s, r), r, s.runs[r].calls[0], Recovery(s.runs[r].calls[0]));
    }
  }

  lemma StepKeepsCore(s: State, e: Event)
    requires Core(s) && Enabled(s, e)
    ensures Core(Step(s, e))
  {
    match e
    case Start(r) => StartKeeps(s, r);
    case Continue(r, expiring) => ContinueKeeps(s, r, expiring);
    case Answered(_, _) => AnswerKeeps(s, e);
    case Cleared(_) => AnswerKeeps(s, e);
    case Resumed(id) => ResumeKeeps(s, id);
    case CallbackReturned(r) =>
    case CallbackFailed(r, error) => CallbackFailedKeeps(s, r, error);
  }

  // ---------- what no step takes back ----------

  /** The sessions that are over, and the calls of a run, are never taken back. */
  ghost predicate Later(s: State, t: State) {
    && Seen(s) <= Seen(t)
    && s.past <= t.past
    && (s.current.Some? && t.current != s.current ==> s.current.value in t.past)
    && (forall r :: r in s.runs ==> r in t.runs && s.runs[r].calls <= t.runs[r].calls)
  }

  lemma EnsureIsLater(s: State, r: RunId, stage: Stage)
    requires r in s.runs
    ensures Later(s, EnsureSession(s, r, stage))
  {
  }

  lemma RefreshIsLater(s: State, r: RunId, session: Sid, stage: Stage)
    requires r in s.runs
    ensures Later(s, RefreshSession(s, r, session, stage))
  {
  }

  lemma LaterTrans(s: State, m: State, t: State)
    requires Later(s, m) && Later(m, t)
    ensures Later(s, t)
  {
    forall r | r in s.runs ensures r in t.runs && s.runs[r].calls <= t.runs[r].calls {
      assert s.runs[r].calls <= m.runs[r].calls <= t.runs[r].calls;
    }
  }

  lemma ReloginIsLater(s: State, r: RunId, source: Sid)
    requires r in s.runs
    ensures Later(s, EnsureSession(if s.current == Some(source) then SetCurrent(s, None) else s, r, Relogin))
  {
    EnsureIsLater(if s.current == Some(source) then SetCurrent(s, None) else s, r, Relogin);
  }

  lemma RecoverIsLater(s: State, r: RunId, error: Error, stage: Stage)
    requires r in s.runs
    ensures Later(s, Recover(s, r, error, stage))
  {
    match stage
    case First =>
      var m := Recovering(s, r);
      if s.current.Some? {
        RefreshIsLater(m, r, s.current.value, Recovery(s.current.value));
      } else {
        EnsureIsLater(m, r, Source);
      }
    case Recovery(source) => ReloginIsLater(s, r, source);
    case _ =>
  }

  lemma ContinueIsLater(s: State, r: RunId, expiring: bool)
    requires Enabled(s, Continue(r, expiring))
    ensures Later(s, ContinueStep(s, r, expiring))
  {
    match s.runs[r].pc
    case HasSession(session, First) => RefreshIsLater(s, r, session, First);
    case HasSession(session, Relogin) =>
    case HasSession(session, _) => RefreshIsLater(s, r, session, Recovery(session));
    case HasFresh(_, _) =>
    case Errored(error, stage) => RecoverIsLater(s, r, error, stage);
  }

  lemma StepIsLater(s: State, e: Event)
    requires Enabled(s, e)
    ensures Later(s, Step(s, e))
  {
    match e
    case Start(r) => EnsureIsLater(s.(runs := s.runs[r := NEW_RUN]), r, First);
    case Continue(r, expiring) => ContinueIsLater(s, r, expiring);
    case Resumed(id) =>
    case CallbackFailed(r, error) =>
      RefreshIsLater(Recovering(s, r), r, s.runs[r].calls[0], Recovery(s.runs[r].calls[0]));
    case _ =>
  }

  // ---------- the session a refresh is for ----------

  /** The session the step passes to refreshSession, if it calls it. */
  function RefreshCall(s: State, e: Event): Option<Sid>
    requires Enabled(s, e)
  {
    match e
    case Continue(r, expiring) =>
      (match s.runs[r].pc
       case HasSession(session, First) => if expiring then Some(session) else None
       case HasSession(session, Relogin) => None
       case HasSession(session, _) => Some(session)
       case HasFresh(_, _) => None
       case Errored(error, stage) =>
         if stage.First? && error.refreshable && !s.runs[r].recovered then s.current else None)
    case CallbackFailed(r, error) =>
      if error.refreshable && !s.runs[r].recovered then Some(s.runs[r].calls[0]) else None
    case _ => None
  }

  /** The step sends a request to refresh this session. */
  ghost predicate AsksFor(s: State, e: Event, session: Sid)
    requires Enabled(s, e)
  {
    var t := Step(s, e);
    |t.requests| > |s.requests| && t.requests[|s.requests|].kind == Refresh(session)
  }

  /** A refresh is sent exactly when one is called for, none is in flight, and no other session is current. */
  lemma RefreshAsksForCurrent(s: State, e: Event, session: Sid)
    requires Enabled(s, e)
    ensures |Step(s, e).requests| <= |s.requests| + 1
    ensures AsksFor(s, e, session) <==>
            RefreshCall(s, e) == Some(session) && s.inFlightRefresh.None?
              && (s.current.None? || s.current == Some(session))
  {
    match e
    case Continue(r, _) => match s.runs[r].pc { case Errored(_, _) => case _ => }
    case _ =>
  }

  lemma CalledForIsSeen(s: State, e: Event)
    requires Core(s) && Enabled(s, e) && RefreshCall(s, e).Some?
    ensures RefreshCall(s, e).value in Seen(s)
  {
    match e
    case Continue(r, _) => assert RunOk(s.runs[r], s.requests, Seen(s));
    case CallbackFailed(r, _) => assert RunOk(s.runs[r], s.requests, Seen(s));
  }

  /** A refresh is for a session that is or was current, and once it has brought a new one, for one that was. */
  ghost predicate SourceOk(q: Request, past: set<Sid>, seen: set<Sid>) {
    q.kind.Refresh? ==>
      q.kind.source in seen && (q.resumed && q.answer.Some? && q.answer.value.Issued? ==> q.kind.source in past)
  }

  ghost predicate SourcesOk(s: State) {
    forall i :: 0 <= i < |s.requests| ==> SourceOk(s.requests[i], s.past, Seen(s))
  }

  /** A run only adds to the requests. */
  lemma RunsOnlyAdd(s: State, e: Event)
    requires Enabled(s, e) && !e.Answered? && !e.Cleared? && !e.Resumed?
    ensures s.requests <= Step(s, e).requests
  {
    match e
    case Continue(r, _) => match s.runs[r].pc { case Errored(_, _) => case _ => }
    case _ =>
  }

  /** What a step does to the requests that are there. */
  lemma RequestsStay(s: State, e: Event, i: nat)
    requires SingleFlight(s) && Enabled(s, e) && i < |s.requests|
    ensures |s.requests| <= |Step(s, e).requests|
    ensures var q, r := s.requests[i], Step(s, e).requests[i];
      && r.kind == q.kind
      && (q.answer.Some? ==> r.answer == q.answer)
      && (r.resumed ==> q.resumed || e == Resumed(i))
      && (q.resumed ==> q.answer.Some?)
  {
    if !e.Answered? && !e.Cleared? && !e.Resumed? {
      RunsOnlyAdd(s, e);
      assert Step(s, e).requests[i] == s.requests[i];
    }
  }

  /** When a refresh brings a new session, the one it was for is over. */
  lemma ResumedIsPast(s: State, i: nat)
    requires Core(s) && SourcesOk(s) && Enabled(s, Resumed(i))
    ensures SourceOk(ResumeStep(s, i).requests[i], ResumeStep(s, i).past, Seen(ResumeStep(s, i)))
  {
    assert SourceOk(s.requests[i], s.past, Seen(s));
  }

  lemma StepKeepsSources(s: State, e: Event)
    requires Core(s) && SourcesOk(s) && Enabled(s, e)
    ensures SourcesOk(Step(s, e))
  {
    OldSourcesStay(s, e);
    NewSourcesAreOk(s, e);
  }

  lemma NewSourcesAreOk(s: State, e: Event)
    requires Core(s) && Enabled(s, e)
    ensures var t := Step(s, e);
      forall i :: |s.requests| <= i < |t.requests| ==> SourceOk(t.requests[i], t.past, Seen(t))
  {
    if |Step(s, e).requests| > |s.requests| {
      NewRequestIsSeen(s, e);
      OneMore(Step(s, e), |s.requests|);
    }
  }

  lemma OneMore(t: State, n: nat)
    requires |t.requests| == n + 1 && SourceOk(t.requests[n], t.past, Seen(t))
    ensures forall i :: n <= i < |t.requests| ==> SourceOk(t.requests[i], t.past, Seen(t))
  {
  }

  lemma OldSourcesStay(s: State, e: Event)
    requires Core(s) && SourcesOk(s) && Enabled(s, e)
    ensures var t := Step(s, e);
      forall i :: 0 <= i < |s.requests| ==> i < |t.requests| && SourceOk(t.requests[i], t.past, Seen(t))
  {
    forall i | 0 <= i < |s.requests|
      ensures var t := Step(s, e); i < |t.requests| && SourceOk(t.requests[i], t.past, Seen(t))
    {
      SourceStays(s, e, i);
    }
  }

  lemma SourceStays(s: State, e: Event, i: nat)
    requires Core(s) && SourcesOk(s) && Enabled(s, e) && i < |s.requests|
    ensures var t := Step(s, e); i < |t.requests| && SourceOk(t.requests[i], t.past, Seen(t))
  {
    RequestsStay(s, e, i);
    if e == Resumed(i) {
      ResumedIsPast(s, i);
    } else {
      StepIsLater(s, e);
      assert SourceOk(s.requests[i], s.past, Seen(s));
    }
  }

  lemma NewRequestIsSeen(s: State, e: Event)
    requires Core(s) && Enabled(s, e) && |Step(s, e).requests| > |s.requests|
    ensures |Step(s, e).requests| == |s.requests| + 1
    ensures SourceOk(Step(s, e).requests[|s.requests|], Step(s, e).past, Seen(Step(s, e)))
  {
    var q := Step(s, e).requests[|s.requests|];
    StepIsLater(s, e);
    RefreshAsksForCurrent(s, e, if q.kind.Refresh? then q.kind.source else 0);
    if q.kind.Refresh? {
      CalledForIsSeen(s, e);
    }
    NewRequestIsOpen(s, e);
  }

  lemma NewRequestIsOpen(s: State, e: Event)
    requires Enabled(s, e) && |Step(s, e).requests| > |s.requests|
    ensures !Step(s, e).requests[|s.requests|].resumed
  {
    match e
    case Continue(r, _) => match s.runs[r].pc { case Errored(_, _) => case _ => }
    case _ =>
  }

  // ---------- recovering once ----------

  function Rank(stage: Stage): nat {
    match stage
    case First => 0
    case Source => 1
    case Recovery(_) => 2
    case Relogin => 3
  }

  /** A run goes through its stages in order, and sends at most one request at each one after the first. */
  ghost predicate Climbs(asked: seq<Stage>) {
    forall i, j :: 0 <= i < j < |asked| ==> Rank(asked[i]) < Rank(asked[j]) || (asked[i].First? && asked[j].First?)
  }

  ghost predicate UpTo(asked: seq<Stage>, rank: nat) {
    forall i :: 0 <= i < |asked| ==> Rank(asked[i]) <= rank
  }

  ghost predicate AskedOk(run: Run) {
    && Climbs(run.asked)
    && match run.pc
       case AwaitLogin(_, stage) => UpTo(run.asked, Rank(stage))
       case AwaitRefresh(_, stage) => UpTo(run.asked, Rank(stage))
       case HasSession(_, stage) => UpTo(run.asked, Rank(stage))
       case HasFresh(_, stage) => UpTo(run.asked, Rank(stage))
       case Errored(_, stage) => UpTo(run.asked, Rank(stage))
       case InCallback => !run.recovered ==> UpTo(run.asked, 0)
       case Finished(_) => true
  }

  ghost predicate AllAskedOk(s: State) {
    forall r :: r in s.runs ==> AskedOk(s.runs[r])
  }

  /** A run enters a stage with requests of earlier stages behind it. */
  ghost predicate Enters(asked: seq<Stage>, stage: Stage) {
    Climbs(asked) && UpTo(asked, if stage.First? then 0 else Rank(stage) - 1)
  }

  ghost predicate OthersAskedOk(s: State, r: RunId) {
    forall x :: x in s.runs && x != r ==> AskedOk(s.runs[x])
  }

  lemma GotoClimbs(s: State, r: RunId, pc: Pc)
    requires r in s.runs && OthersAskedOk(s, r) && AskedOk(s.runs[r].(pc := pc))
    ensures AllAskedOk(Goto(s, r, pc))
  {
  }

  lemma AskClimbs(asked: seq<Stage>, stage: Stage)
    requires Enters(asked, stage)
    ensures Climbs(asked + [stage]) && UpTo(asked + [stage], Rank(stage))
  {
  }

  lemma EnsureClimbs(s: State, r: RunId, stage: Stage)
    requires r in s.runs && Enters(s.runs[r].asked, stage) && OthersAskedOk(s, r)
    ensures AllAskedOk(EnsureSession(s, r, stage))
  {
    if s.current.Some? {
      GotoClimbs(s, r, HasSession(s.current.value, stage));
    } else if s.inFlightLogin.Some? {
      GotoClimbs(s, r, AwaitLogin(s.inFlightLogin.value, stage));
    } else {
      AskClimbs(s.runs[r].asked, stage);
      GotoClimbs(Ask(s, r, Login, stage), r, AwaitLogin(|s.requests|, stage));
    }
  }

  lemma RefreshClimbs(s: State, r: RunId, session: Sid, stage: Stage)
    requires r in s.runs && Enters(s.runs[r].asked, stage) && OthersAskedOk(s, r)
    ensures AllAskedOk(RefreshSession(s, r, session, stage))
  {
    if s.current.Some? && s.current.value != session {
      GotoClimbs(s, r, HasFresh(s.current.value, stage));
    } else if s.inFlightRefresh.Some? {
      GotoClimbs(s, r, AwaitRefresh(s.inFlightRefresh.value, stage));
    } else {
      AskClimbs(s.runs[r].asked, stage);
      GotoClimbs(Ask(s, r, Refresh(session), stage), r, AwaitRefresh(|s.requests|, stage));
    }
  }

  lemma ContinueClimbs(s: State, r: RunId, expiring: bool)
    requires Core(s) && AllAskedOk(s) && Enabled(s, Continue(r, expiring))
    ensures AllAskedOk(ContinueStep(s, r, expiring))
  {
    assert AskedOk(s.runs[r]) && RunOk(s.runs[r], s.requests, Seen(s));
    match s.runs[r].pc
    case HasSession(session, First) => RefreshClimbs(s, r, session, First);
    case HasSession(session, Relogin) =>
    case HasSession(session, _) => RefreshClimbs(s, r, session, Recovery(session));
    case HasFresh(_, _) =>
    case Errored(error, stage) => RecoverClimbs(s, r, error, stage);
  }

  lemma RecoverClimbs(s: State, r: RunId, error: Error, stage: Stage)
    requires r in s.runs && s.runs[r].pc == Errored(error, stage) && AllAskedOk(s)
    ensures AllAskedOk(Recover(s, r, error, stage))
  {
    assert AskedOk(s.runs[r]);
    match stage
    case First =>
      if s.current.Some? {
        RefreshClimbs(Recovering(s, r), r, s.current.value, Recovery(s.current.value));
      } else {
        EnsureClimbs(Recovering(s, r), r, Source);
      }
    case Recovery(source) =>
      EnsureClimbs(if s.current == Some(source) then SetCurrent(s, None) else s, r, Relogin);
    case _ =>
  }

  lemma StepClimbs(s: State, e: Event)
    requires Core(s) && AllAskedOk(s) && Enabled(s, e)
    ensures AllAskedOk(Step(s, e))
  {
    match e
    case Start(r) => EnsureClimbs(s.(runs := s.runs[r := NEW_RUN]), r, First);
    case Continue(r, expiring) => ContinueClimbs(s, r, expiring);
    case Resumed(id) =>
      forall r | r in s.runs ensures AskedOk(Step(s, e).runs[r]) {
        assert AskedOk(s.runs[r]);
      }
    case CallbackFailed(r, error) =>
      assert AskedOk(s.runs[r]);
      if !s.runs[r].recovered {
        RefreshClimbs(Recovering(s, r), r, s.runs[r].calls[0], Recovery(s.runs[r].calls[0]));
      }
    case _ =>
  }

  // ---------- the invariant ----------

  ghost predicate Inv(s: State) {
    Core(s) && SourcesOk(s) && AllAskedOk(s)
  }

  /** Every step keeps the invariant. */
  lemma StepKeeps(s: State, e: Event)
    requires Inv(s) && Enabled(s, e)
    ensures Inv(Step(s, e))
  {
    StepKeepsCore(s, e);
    StepKeepsSources(s, e);
    StepClimbs(s, e);
  }

  // ---------- runs ----------

  ghost predicate ValidRun(s: State, es: seq<Event>)
    decreases |es|
  {
    es == [] || (Enabled(s, es[0]) && ValidRun(Step(s, es[0]), es[1..]))
  }

  ghost function After(s: State, es: seq<Event>): State
    requires ValidRun(s, es)
    decreases |es|
  {
    if es == [] then s else After(Step(s, es[0]), es[1..])
  }

  lemma {:induction false} RunKeeps(s: State, es: seq<Event>)
    requires Inv(s) && ValidRun(s, es)
    ensures Inv(After(s, es)) && Later(s, After(s, es))
    decreases |es|
  {
    if es != [] {
      var m := Step(s, es[0]);
      StepKeeps(s, es[0]);
      StepIsLater(s, es[0]);
      RunKeeps(m, es[1..]);
      LaterTrans(s, m, After(m, es[1..]));
    }
  }

  /** In every run of the runner at most one login and at most one refresh are outstanding. */
  lemma OneRequestOfAKind(es: seq<Event>, i: nat, j: nat)
    requires ValidRun(INITIAL, es)
    requires var q := After(INITIAL, es).requests;
      i < |q| && j < |q| && q[i].answer.None? && q[j].answer.None? && q[i].kind.Login? == q[j].kind.Login?
    ensures i == j
  {
    RunKeeps(INITIAL, es);
  }

  /** A session that was current and has been replaced or dropped is never current again. */
  lemma NeverReturnsToAnOldSession(s: State, es: seq<Event>, session: Sid)
    requires Inv(s) && ValidRun(s, es)
    requires session in Seen(s) && s.current != Some(session)
    ensures After(s, es).current != Some(session)
  {
    RunKeeps(s, es);
  }

  /** The callback of a run is called at most twice, and not again with the session it failed with. */
  lemma AtMostTwoCalls(es: seq<Event>, r: RunId)
    requires ValidRun(INITIAL, es) && r in After(INITIAL, es).runs
    ensures var calls := After(INITIAL, es).runs[r].calls;
      |calls| <= 2 && (|calls| == 2 ==> calls[0] != calls[1])
  {
    RunKeeps(INITIAL, es);
    var s := After(INITIAL, es);
    assert RunOk(s.runs[r], s.requests, Seen(s));
  }

  /** A run sends at most one refresh in recovery and at most one login as a fallback, in that order. */
  lemma RecoversOnce(es: seq<Event>, r: RunId, i: nat, j: nat)
    requires ValidRun(INITIAL, es) && r in After(INITIAL, es).runs
    requires var asked := After(INITIAL, es).runs[r].asked;
      i < |asked| && j < |asked| && Rank(asked[i]) == Rank(asked[j]) && !asked[i].First?
    ensures i == j
  {
    RunKeeps(INITIAL, es);
    assert AskedOk(After(INITIAL, es).runs[r]);
  }

  /** No lost wake-up: a run that is not finished can move, or what it awaits can still be answered or resumed. */
  lemma NoRunIsForgotten(s: State, r: RunId)
    requires Inv(s) && r in s.runs && !s.runs[r].pc.Finished?
    ensures match s.runs[r].pc
            case AwaitLogin(id, _) => Enabled(s, Answered(id, None)) || Enabled(s, Resumed(id))
            case AwaitRefresh(id, _) => Enabled(s, Answered(id, None)) || Enabled(s, Cleared(id))
              || Enabled(s, Resumed(id))
            case InCallback => Enabled(s, CallbackReturned(r))
            case _ => Enabled(s, Continue(r, false))
  {
    assert RunOk(s.runs[r], s.requests, Seen(s));
  }

  // ---------- refreshing the same session again ----------

  /** A refresh of this session has brought a new one. */
  ghost predicate Renewed(s: State, session: Sid) {
    exists i :: RenewedBy(s, i, session)
  }

  ghost predicate RenewedBy(s: State, i: int, session: Sid) {
    0 <= i < |s.requests| && s.requests[i].kind == Refresh(session)
    && s.requests[i].answer.Some? && s.requests[i].answer.value.Issued?
  }

  /** The window between the clearing of inFlightRefresh and the assignment of currentSession. */
  ghost predicate InWindow(s: State, session: Sid) {
    exists i :: RenewedBy(s, i, session) && s.requests[i].cleared && !s.requests[i].resumed
  }

  /**
   Single flight does not mean one refresh a session.  A step asks again for a session that a
   refresh has already replaced exactly if it calls refreshSession with it while no refresh is in
   flight and either that session is still current, which it is only inside the window, or no
   session is.
   */
  lemma AsksAgainExactly(s: State, e: Event, session: Sid)
    requires Inv(s) && Enabled(s, e)
    ensures AsksFor(s, e, session) && Renewed(s, session) <==>
            && RefreshCall(s, e) == Some(session) && s.inFlightRefresh.None?
            && ((s.current == Some(session) && InWindow(s, session)) || (s.current.None? && Renewed(s, session)))
  {
    RefreshAsksForCurrent(s, e, session);
    if Renewed(s, session) && s.current == Some(session) && s.inFlightRefresh.None? {
      var i :| RenewedBy(s, i, session);
      assert SourceOk(s.requests[i], s.past, Seen(s));
      assert s.requests[i].cleared && !s.requests[i].resumed;
    }
  }
}
