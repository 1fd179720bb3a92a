/** The session runner with the variables its runs share; a login or refresh under way is a promise object. */
module SessionRunners {
  import opened Wrappers
  import opened SessionSpec
  import Safety = SessionSafety

  /** The promise of a login or refresh request; `id` numbers the promises. */
  class Promise {
    const id: nat
    const kind: Kind
    var answer: Option<Answer>
    var cleared: bool
    var resumed: bool

    ghost function Value(): Request
      reads this
    {
      Request(kind, answer, cleared, resumed)
    }

    constructor (id: nat, kind: Kind)
      ensures this.id == id && Value() == Request(kind, None, false, false)
    {
      this.id, this.kind := id, kind;
      answer, cleared, resumed := None, false, false;
    }
  }

  class SessionRunner {
    var currentSession: Option<Sid>
    var inFlightLogin: Promise?
    var inFlightRefresh: Promise?
    var runs: map<RunId, Run>
    var issued: nat // numbers the session objects
    var asked: nat // numbers the promises
    ghost var promises: seq<Promise>
    ghost var requests: seq<Request> // what the promises say
    ghost var past: set<Sid>

    /** Promises are numbered in order, and the two variables point at some of them. */
    ghost predicate Linked()
      reads this, promises
    {
      && asked == |promises| == |requests|
      && (forall i :: 0 <= i < |promises| ==> promises[i].id == i && requests[i] == promises[i].Value())
      && (inFlightLogin != null ==> inFlightLogin in promises)
      && (inFlightRefresh != null ==> inFlightRefresh in promises)
    }

    ghost function View(): State
      reads this
    {
      State(currentSession, if inFlightLogin == null then None else Some(inFlightLogin.id),
            if inFlightRefresh == null then None else Some(inFlightRefresh.id), requests, runs, issued, past)
    }

    ghost predicate Valid()
      reads this, promises
    {
      Linked() && Safety.Inv(View())
    }

    constructor ()
      ensures Valid() && View() == INITIAL
    {
      currentSession, inFlightLogin, inFlightRefresh := None, null, null;
      runs, issued, asked := map[], 0, 0;
      promises, requests, past := [], [], {};
    }

    method Goto(r: RunId, pc: Pc)
      requires Linked() && r in runs
      modifies `runs
      ensures Linked() && View() == SessionSpec.Goto(old(View()), r, pc)
    {
      runs := runs[r := runs[r].(pc := pc)];
    }

    method SetCurrent(session: Option<Sid>)
      requires Linked()
      modifies `currentSession, `past
      ensures Linked() && View() == SessionSpec.SetCurrent(old(View()), session)
    {
      if currentSession.Some? {
        past := past + {currentSession.value};
      }
      currentSession := session;
    }

    /** Sends a request for a run, and keeps its promise in the variable of its kind. */
    method Send(r: RunId, kind: Kind, stage: Stage)
      requires Linked() && r in runs
      modifies `inFlightLogin, `inFlightRefresh, `asked, `promises, `requests, `runs
      ensures Linked() && View() == Ask(old(View()), r, kind, stage)
      ensures old(promises) <= promises && fresh(promises[|old(promises)|..]) && r in runs
      ensures if kind.Login? then inFlightLogin != null && inFlightRefresh == old(inFlightRefresh)
              else inFlightRefresh != null && inFlightLogin == old(inFlightLogin)
    {
      var p := Create(kind);
      if kind.Login? {
        inFlightLogin := p;
      } else {
        inFlightRefresh := p;
      }
      runs := runs[r := runs[r].(asked := runs[r].asked + [stage])];
    }

    method Create(kind: Kind) returns (p: Promise)
      requires Linked()
      modifies `asked, `promises, `requests
      ensures Linked() && fresh(p) && p.id == |old(promises)| && promises == old(promises) + [p]
      ensures View() == old(View()).(requests := old(View()).requests + [Request(kind, None, false, false)])
    {
      p := new Promise(asked, kind);
      asked, promises, requests := asked + 1, promises + [p], requests + [Request(kind, None, false, false)];
    }

    method EnsureSession(r: RunId, stage: Stage)
      requires Linked() && r in runs
      modifies `inFlightLogin, `inFlightRefresh, `asked, `promises, `requests, `runs
      ensures Linked() && old(promises) <= promises && fresh(promises[|old(promises)|..])
      ensures View() == SessionSpec.EnsureSession(old(View()), r, stage)
    {
      if currentSession.Some? {
        Goto(r, HasSession(currentSession.value, stage));
        return;
      }
      if inFlightLogin == null {
        Send(r, Login, stage);
      }
      Goto(r, AwaitLogin(inFlightLogin.id, stage));
    }

    method RefreshSession(r: RunId, session: Sid, stage: Stage)
      requires Linked() && r in runs
      modifies `inFlightLogin, `inFlightRefresh, `asked, `promises, `requests, `runs
      ensures Linked() && old(promises) <= promises && fresh(promises[|old(promises)|..])
      ensures View() == SessionSpec.RefreshSession(old(View()), r, session, stage)
    {
      if currentSession.Some? && currentSession.value != session {
        Goto(r, HasFresh(currentSession.value, stage));
        return;
      }
      var source := if currentSession.Some? then currentSession.value else session;
      if inFlightRefresh == null {
        Send(r, Refresh(source), stage);
      }
      Goto(r, AwaitRefresh(inFlightRefresh.id, stage));
    }

    method Call(r: RunId, session: Sid)
      requires Linked() && r in runs
      modifies `runs
      ensures Linked() && View() == SessionSpec.Call(old(View()), r, session)
    {
      runs := runs[r := runs[r].(pc := InCallback, calls := runs[r].calls + [session])];
    }

    method Recovering(r: RunId)
      requires Linked() && r in runs
      modifies `runs
      ensures Linked() && View() == SessionSpec.Recovering(old(View()), r) && r in runs
    {
      runs := runs[r := runs[r].(recovered := true)];
    }

    method Recover(r: RunId, error: Error, stage: Stage)
      requires Linked() && r in runs
      modifies this
      ensures Linked() && View() == SessionSpec.Recover(old(View()), r, error, stage)
    {
      match stage
      case First =>
        if !error.refreshable || runs[r].recovered {
          Goto(r, Finished(false));
        } else {
          Recovering(r);
          if currentSession.Some? {
            RefreshSession(r, currentSession.value, Recovery(currentSession.value));
          } else {
            EnsureSession(r, Source);
          }
        }
      case Recovery(source) =>
        if !error.unauthorized {
          Goto(r, Finished(false));
        } else {
          if currentSession == Some(source) {
            SetCurrent(None);
          }
          EnsureSession(r, Relogin);
        }
      case _ => Goto(r, Finished(false));
    }

    // ---------- the events ----------

    method Start(r: RunId)
      requires Valid() && r !in runs
      modifies this
      ensures Valid() && View() == Step(old(View()), SessionSpec.Start(r))
    {
      Safety.StepKeeps(View(), SessionSpec.Start(r));
      runs := runs[r := NEW_RUN];
      EnsureSession(r, First);
    }

    /** The next continuation of a run; `expiring` is what the token's expiry says at this moment. */
    method Continue(r: RunId, expiring: bool)
      requires Valid() && Enabled(View(), SessionSpec.Continue(r, expiring))
      modifies this
      ensures Valid() && View() == Step(old(View()), SessionSpec.Continue(r, expiring))
    {
      Safety.StepKeeps(View(), SessionSpec.Continue(r, expiring));
      match runs[r].pc
      case HasSession(session, stage) =>
        if stage.Relogin? {
          Call(r, session);
        } else if stage.First? && !expiring {
          Goto(r, HasFresh(session, First));
        } else {
          RefreshSession(r, session, if stage.First? then First else Recovery(session));
        }
      case HasFresh(session, _) => Call(r, session);
      case Errored(error, stage) => Recover(r, error, stage);
    }

    /** A request ends, with a new session or with an error. */
    method Answered(p: Promise, refusal: Option<Error>)
      requires Valid() && p in promises && Enabled(View(), SessionSpec.Answered(p.id, refusal))
      modifies p, `requests, `issued
      ensures Valid() && View() == Step(old(View()), SessionSpec.Answered(p.id, refusal))
    {
      Safety.StepKeeps(View(), SessionSpec.Answered(p.id, refusal));
      Settle(p, refusal);
    }

    method Settle(p: Promise, refusal: Option<Error>)
      requires Linked() && p in promises && Enabled(View(), SessionSpec.Answered(p.id, refusal))
      modifies p, `requests, `issued
      ensures Linked() && View() == Step(old(View()), SessionSpec.Answered(p.id, refusal))
    {
      IsAt(p);
      Update(p, Some(if refusal.Some? then Refused(refusal.value) else Issued(issued)), p.cleared, p.resumed);
      if refusal.None? {
        issued := issued + 1;
      }
    }

    /** The finally of a refresh request. */
    method Cleared(p: Promise)
      requires Valid() && p in promises && Enabled(View(), SessionSpec.Cleared(p.id))
      modifies p, `requests, `inFlightRefresh
      ensures Valid() && View() == Step(old(View()), SessionSpec.Cleared(p.id))
    {
      Safety.StepKeeps(View(), SessionSpec.Cleared(p.id));
      Update(p, p.answer, true, p.resumed);
      inFlightRefresh := null;
    }

    /** The continuations of everyone who awaited a request. */
    method Resumed(p: Promise)
      requires Valid() && p in promises && Enabled(View(), SessionSpec.Resumed(p.id))
      modifies this, p
      ensures Valid() && View() == Step(old(View()), SessionSpec.Resumed(p.id))
    {
      Safety.StepKeeps(View(), SessionSpec.Resumed(p.id));
      Resume(p);
    }

    method Resume(p: Promise)
      requires Linked() && p in promises && Enabled(View(), SessionSpec.Resumed(p.id))
      modifies this, p
      ensures Linked() && View() == ResumeStep(old(View()), p.id)
    {
      IsAt(p);
      var answer := p.answer.value;
      if answer.Issued? {
        SetCurrent(Some(answer.session));
      }
      Update(p, p.answer, p.cleared, true);
      if p.kind.Login? {
        inFlightLogin := null;
      }
      runs := map r | r in runs :: Wake(runs[r], p.id, answer);
    }

    lemma IsAt(p: Promise)
      requires Linked() && p in promises
      ensures p.id < |promises| && promises[p.id] == p && requests[p.id] == p.Value()
    {
    }

    method Update(p: Promise, answer: Option<Answer>, cleared: bool, resumed: bool)
      requires Linked() && p in promises
      modifies p, `requests
      ensures Linked() && p.id < |promises|
              && requests == old(requests)[p.id := Request(p.kind, answer, cleared, resumed)]
      ensures old(requests[p.id]) == old(p.Value())
    {
      IsAt(p);
      p.answer, p.cleared, p.resumed := answer, cleared, resumed;
      requests := requests[p.id := p.Value()];
    }

    method CallbackReturned(r: RunId)
      requires Valid() && Enabled(View(), SessionSpec.CallbackReturned(r))
      modifies `runs
      ensures Valid() && View() == Step(old(View()), SessionSpec.CallbackReturned(r))
    {
      Safety.StepKeeps(View(), SessionSpec.CallbackReturned(r));
      Goto(r, Finished(true));
    }

    method CallbackFailed(r: RunId, error: Error)
      requires Valid() && Enabled(View(), SessionSpec.CallbackFailed(r, error))
      modifies this
      ensures Valid() && View() == Step(old(View()), SessionSpec.CallbackFailed(r, error))
    {
      Safety.StepKeeps(View(), SessionSpec.CallbackFailed(r, error));
      if !error.refreshable || runs[r].recovered {
        Goto(r, Finished(false));
      } else {
        Recovering(r);
        RefreshSession(r, runs[r].calls[0], Recovery(runs[r].calls[0]));
      }
    }
  }
}
