/** What each event does to the pulls of a transport: which pull it ends, how, and which keys it takes or gives back. */
module StreamPullEffects {
  import opened Wrappers
  import opened StreamPullSpec
  import opened StreamPullSafety

  /** A readable response that belongs to another pull: a success must name this one, a failure may leave ids out. */
  predicate ForAnother(r: Response, key: Key) {
    || (r.Success? && Key(r.requestId, r.streamId) != key)
    || (r.Failure? && r.failedRequest.Some? && r.failedRequest.value != key.requestId)
    || (r.Failure? && r.failedStream.Some? && r.failedStream.value != key.streamId)
  }

  /** The event is the end of pull i, which is for this key. */
  predicate Finishes(e: Event, i: nat, key: Key) {
    e == Terminated(i) || (e.Decoded? && e.pull == i && !ForAnother(e.response, key))
  }

  /**
   A window of at least one is rounded down and cut at 1000, a smaller positive one is 1, and any other the
   fallback.
   */
  predicate WindowFor(value: Option<real>, fallback: int, window: int) {
    if value.None? || value.value <= 0.0 then window == fallback
    else if value.value < 1.0 then window == 1
    else if value.value >= 1000.0 then window == 1000
    else window as real <= value.value < window as real + 1.0
  }

  lemma WindowIs(value: Option<real>, fallback: int)
    ensures WindowFor(value, fallback, NormalizeWindow(value, fallback))
  {
    if value.Some? && value.value >= 1000.0 {
      assert Floor(value.value) >= 1000;
    }
  }

  /** A pull is granted by a success, with the window that states or else its own, and refused by anything else. */
  predicate Verdict(e: Event, p: Pull, o: Outcome) {
    if e.Decoded? && e.response.Success? then
      o.Granted? && WindowFor(Some(e.response.windowSize as real), p.window, o.window)
    else o == Refused
  }

  /** How many responses are in decoding for pull i after the event. */
  function DecodingAfter(s: State, e: Event, i: nat): int
    requires i < |s.pulls|
  {
    s.pulls[i].decoding + (if e == Arrived(i) then 1 else if e.Decoded? && e.pull == i then -1 else 0)
  }

  /**
   A pull that has not settled settles exactly when an event ends it, as that says; a response for
   another pull, and whatever happens to other pulls, leaves it as it is.
   */
  lemma PullsChangeExactly(s: State, e: Event, i: nat)
    requires Enabled(s, e) && i < |s.pulls|
    ensures |Step(s, e).pulls| >= |s.pulls|
    ensures var p, q := s.pulls[i], Step(s, e).pulls[i];
      && q.key == p.key && q.window == p.window && q.decoding == DecodingAfter(s, e, i)
      && (p.outcome.None? && Finishes(e, i, p.key) ==> q.outcome.Some? && Verdict(e, p, q.outcome.value))
      && (p.outcome.Some? || !Finishes(e, i, p.key) ==> q.outcome == p.outcome)
  {
    if e.Decoded? && e.response.Success? {
      WindowIs(Some(e.response.windowSize as real), s.pulls[e.pull].window);
    }
  }

  /** Event n is the first that ends the pull. */
  ghost predicate FirstFinishes(es: seq<Event>, n: int, i: nat, key: Key) {
    0 <= n < |es| && Finishes(es[n], i, key) && forall m :: 0 <= m < n ==> !Finishes(es[m], i, key)
  }

  /** In every run a pull has settled if and only if some event ended it, and as the first such event says. */
  lemma {:induction false} SettlesExactly(s: State, es: seq<Event>, i: nat)
    requires ValidRun(s, es) && i < |s.pulls| && s.pulls[i].outcome.None?
    ensures i < |After(s, es).pulls|
    ensures var p, o := s.pulls[i], After(s, es).pulls[i].outcome;
      && (o.Some? <==> exists n :: 0 <= n < |es| && Finishes(es[n], i, p.key))
      && (o.Some? ==> exists n :: FirstFinishes(es, n, i, p.key) && Verdict(es[n], p, o.value))
    decreases |es|
  {
    if es != [] {
      var p := s.pulls[i];
      PullsChangeExactly(s, es[0], i);
      StreamPullSafety.SettlesOnce(Step(s, es[0]), es[1..], i);
      if Finishes(es[0], i, p.key) {
        assert FirstFinishes(es, 0, i, p.key);
      } else {
        SettlesExactly(Step(s, es[0]), es[1..], i);
        FinishesLater(es, i, p.key);
      }
    }
  }

  lemma FinishesLater(es: seq<Event>, i: nat, key: Key)
    requires es != [] && !Finishes(es[0], i, key)
    ensures (exists n :: 0 <= n < |es| && Finishes(es[n], i, key)) <==>
            exists n :: 0 <= n < |es[1..]| && Finishes(es[1..][n], i, key)
    ensures forall n :: FirstFinishes(es[1..], n, i, key) ==>
            FirstFinishes(es, n + 1, i, key) && es[n + 1] == es[1..][n]
  {
    if n :| 0 <= n < |es| && Finishes(es[n], i, key) {
      assert es[1..][n - 1] == es[n];
    }
    forall n | FirstFinishes(es[1..], n, i, key) ensures FirstFinishes(es, n + 1, i, key) {
      assert forall m :: 1 <= m < n + 1 ==> es[m] == es[1..][m - 1];
    }
  }

  /** A request is let in exactly if its key is not taken; one that is aborted or cannot be sent is refused at once. */
  lemma RequestsExactly(s: State, key: Key, windowSize: Option<real>, aborted: bool, throws: bool)
    ensures var t, n := Step(s, Request(key, windowSize, aborted, throws)), |s.pulls|;
      if key in s.keys then t == s
      else
        && |t.pulls| == n + 1 && t.pulls[..n] == s.pulls
        && t.pulls[n].key == key && WindowFor(windowSize, 256, t.pulls[n].window) && t.pulls[n].decoding == 0
        && t.pulls[n].outcome == (if aborted || throws then Some(Refused) else None)
        && t.keys == if aborted || throws then s.keys else s.keys + {key}
  {
    WindowIs(windowSize, 256);
  }

  /** A key is taken by a request that is let in and given back by whatever ends a pull for it, settled or not. */
  lemma KeysChangeExactly(s: State, e: Event)
    requires Enabled(s, e) && !e.Request?
    ensures Step(s, e).keys ==
            s.keys - (if e.pull < |s.pulls|
                      && Finishes(e, e.pull, s.pulls[e.pull].key) then {s.pulls[e.pull].key} else {})
  {
  }
}
