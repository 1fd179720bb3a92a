/** What the guard on stream pulls does, over every interleaving of requests and decodings. */
module StreamPullSafety {
  import opened Wrappers
  import opened StreamPullSpec

  // ---------- the guard ----------

  ghost predicate Outstanding(s: State, key: Key) {
    exists i :: Pending(s, i) && s.pulls[i].key == key
  }

  /** The set holds exactly the keys of the pulls under way. */
  ghost predicate KeysExact(s: State) {
    forall key :: key in s.keys <==> Outstanding(s, key)
  }

  /** At most one pull under way for a request and stream. */
  ghost predicate Exclusive(s: State) {
    forall i, j :: Pending(s, i) && Pending(s, j) && s.pulls[i].key == s.pulls[j].key ==> i == j
  }

  ghost predicate Guarded(s: State) { KeysExact(s) && Exclusive(s) }

  /**
   A response outlasts the pull it came in for, and ends it once more while the next pull for its key is under way.
   */
  ghost predicate Late(s: State, e: Event) {
    && e.Decoded? && Enabled(s, e)
    && s.pulls[e.pull].outcome.Some?
    && Ends(e.response, s.pulls[e.pull].key)
    && Outstanding(s, s.pulls[e.pull].key)
  }

  lemma EndKeeps(s: State, i: nat, o: Outcome)
    requires Guarded(s) && Pending(s, i)
    ensures Guarded(End(s, i, o))
  {
    var t, key := End(s, i, o), s.pulls[i].key;
    assert forall j :: Pending(t, j) <==> Pending(s, j) && j != i;
    assert forall j :: 0 <= j < |s.pulls| ==> t.pulls[j].key == s.pulls[j].key;
    forall k ensures k in t.keys <==> Outstanding(t, k) {
      if k in t.keys {
        var j :| Pending(s, j) && s.pulls[j].key == k;
        assert Pending(t, j) && t.pulls[j].key == k;
      }
      if Outstanding(t, k) {
        var j :| Pending(t, j) && t.pulls[j].key == k;
        assert Pending(s, j) && s.pulls[j].key == k;
        assert Outstanding(s, k);
      }
    }
  }

  /** A decoding counts for nothing as far as the guard is concerned. */
  lemma CountKeeps(s: State, i: nat, decoding: nat)
    requires Guarded(s) && i < |s.pulls|
    ensures Guarded(s.(pulls := s.pulls[i := s.pulls[i].(decoding := decoding)]))
    ensures forall j :: Pending(s, j) <==> Pending(s.(pulls := s.pulls[i := s.pulls[i].(decoding := decoding)]), j)
  {
    var t := s.(pulls := s.pulls[i := s.pulls[i].(decoding := decoding)]);
    assert forall j :: Pending(s, j) <==> Pending(t, j);
    assert forall j :: 0 <= j < |s.pulls| ==> t.pulls[j].key == s.pulls[j].key;
    forall k ensures Outstanding(s, k) <==> Outstanding(t, k) {
      if j :| Pending(s, j) && s.pulls[j].key == k {
        assert Pending(t, j) && t.pulls[j].key == k;
      }
      if j :| Pending(t, j) && t.pulls[j].key == k {
        assert Pending(s, j) && s.pulls[j].key == k;
      }
    }
  }

  lemma AddKeeps(s: State, p: Pull)
    requires Guarded(s) && p.key !in s.keys && p.outcome.None?
    ensures Guarded(State(s.keys + {p.key}, s.pulls + [p]))
            && Pending(State(s.keys + {p.key}, s.pulls + [p]), |s.pulls|)
  {
    var t := State(s.keys + {p.key}, s.pulls + [p]);
    assert forall j :: Pending(t, j) <==> Pending(s, j) || j == |s.pulls|;
    assert forall j :: 0 <= j < |s.pulls| ==> t.pulls[j] == s.pulls[j];
    forall k ensures k in t.keys <==> Outstanding(t, k) {
      if k in s.keys {
        var j :| Pending(s, j) && s.pulls[j].key == k;
        assert Pending(t, j) && t.pulls[j].key == k;
      }
      if k == p.key {
        assert Pending(t, |s.pulls|) && t.pulls[|s.pulls|].key == k;
      }
      if Outstanding(t, k) && k != p.key {
        var j :| Pending(t, j) && t.pulls[j].key == k;
        assert Pending(s, j) && s.pulls[j].key == k;
        assert Outstanding(s, k);
      }
    }
    forall i, j | Pending(t, i) && Pending(t, j) && t.pulls[i].key == t.pulls[j].key ensures i == j {
      if i < |s.pulls| { assert Outstanding(s, s.pulls[i].key); }
      if j < |s.pulls| { assert Outstanding(s, s.pulls[j].key); }
    }
  }

  lemma RequestKeeps(s: State, key: Key, windowSize: Option<real>, fails: bool)
    requires Guarded(s)
    ensures Guarded(RequestStep(s, key, windowSize, fails))
  {
    if key !in s.keys {
      var p := Pull(key, NormalizeWindow(windowSize, DEFAULT_WINDOW), None, 0);
      AddKeeps(s, p);
      if fails {
        EndKeeps(State(s.keys + {key}, s.pulls + [p]), |s.pulls|, Refused);
      }
    }
  }

  /** A settled pull that ends again takes its key out of the set, whoever it is there for. */
  lemma EndAgain(s: State, i: nat, o: Outcome)
    requires Guarded(s) && i < |s.pulls| && s.pulls[i].outcome.Some?
    ensures Guarded(End(s, i, o)) <==> !Outstanding(s, s.pulls[i].key)
  {
    var t, key := End(s, i, o), s.pulls[i].key;
    assert t.pulls == s.pulls;
    forall k ensures Outstanding(t, k) <==> Outstanding(s, k) {
      if j :| Pending(s, j) && s.pulls[j].key == k { assert Pending(t, j); }
      if j :| Pending(t, j) && t.pulls[j].key == k { assert Pending(s, j); }
    }
    assert forall j :: Pending(t, j) <==> Pending(s, j);
    assert key !in t.keys;
  }

  lemma DecodedKeeps(s: State, i: nat, r: Response)
    requires Guarded(s) && Enabled(s, Decoded(i, r))
    ensures Guarded(DecodedStep(s, i, r)) <==> !Late(s, Decoded(i, r))
  {
    var t := s.(pulls := s.pulls[i := s.pulls[i].(decoding := s.pulls[i].decoding - 1)]);
    CountKeeps(s, i, s.pulls[i].decoding - 1);
    var key := s.pulls[i].key;
    assert Outstanding(s, key) <==> key in s.keys;
    assert Outstanding(t, key) <==> key in t.keys;
    if Ends(r, key) {
      var o := OutcomeOf(r, s.pulls[i]);
      if s.pulls[i].outcome.Some? {
        EndAgain(t, i, o);
      } else {
        EndKeeps(t, i, o);
      }
    }
  }

  /**
   The guard is exact and exclusive after every step but one: when a response outlasts its pull and
   ends it once more while the next pull for the same request and stream is under way, and then it
   is not, without exception.
   */
  lemma StepKeeps(s: State, e: Event)
    requires Guarded(s) && Enabled(s, e)
    ensures Guarded(Step(s, e)) <==> !Late(s, e)
  {
    match e
    case Request(key, windowSize, aborted, throws) => RequestKeeps(s, key, windowSize, aborted || throws);
    case Arrived(i) => CountKeeps(s, i, s.pulls[i].decoding + 1);
    case Decoded(i, r) => DecodedKeeps(s, i, r);
    case Terminated(i) => EndKeeps(s, i, Refused);
  }

  // ---------- runs ----------

  ghost predicate ValidRun(s: State, es: seq<Event>)
    decreases |es|
  {
    es == [] || (Enabled(s, es[0]) && ValidRun(Step(s, es[0]), es[1..]))
  }

  ghost function After(s: State, es: seq<Event>): State
    requires ValidRun(s, es)
    decreases |es|
  {
    if es == [] then s else After(Step(s, es[0]), es[1..])
  }

  ghost predicate SomeLate(s: State, es: seq<Event>)
    requires ValidRun(s, es)
    decreases |es|
  {
    es != [] && (Late(s, es[0]) || SomeLate(Step(s, es[0]), es[1..]))
  }

  lemma {:induction false} RunStaysGuarded(s: State, es: seq<Event>)
    requires Guarded(s) && ValidRun(s, es) && !SomeLate(s, es)
    ensures Guarded(After(s, es))
    decreases |es|
  {
    if es != [] {
      StepKeeps(s, es[0]);
      RunStaysGuarded(Step(s, es[0]), es[1..]);
    }
  }

  lemma InitiallyGuarded()
    ensures Guarded(INITIAL)
  {
  }

  /**
   In every run in which no response outlasts its pull in that way, there is at most one pull a request and stream.
   */
  lemma OneOutstandingPull(es: seq<Event>)
    requires ValidRun(INITIAL, es) && !SomeLate(INITIAL, es)
    ensures Guarded(After(INITIAL, es))
  {
    InitiallyGuarded();
    RunStaysGuarded(INITIAL, es);
  }

  /** After a late end the guard lets a second pull in beside the one under way. */
  lemma LateLetsASecondIn(s: State, e: Event, windowSize: Option<real>)
    requires Guarded(s) && Late(s, e)
    ensures var key := s.pulls[e.pull].key;
      var t := Step(Step(s, e), Request(key, windowSize, false, false));
      exists i :: i < |s.pulls| && Pending(t, i) && Pending(t, |s.pulls|)
        && t.pulls[i].key == key == t.pulls[|s.pulls|].key
  {
    var key := s.pulls[e.pull].key;
    var i :| Pending(s, i) && s.pulls[i].key == key;
    var m := Step(s, e);
    assert key !in m.keys && Pending(m, i) && m.pulls[i].key == key && |m.pulls| == |s.pulls|;
    var t := Step(m, Request(key, windowSize, false, false));
    assert Pending(t, i) && Pending(t, |s.pulls|) && t.pulls[i].key == key;
  }

  /** Two responses are in decoding for one pull. */
  lemma TwoInDecoding(key: Key, windowSize: Option<real>)
    ensures var r := Request(key, windowSize, false, false);
      var p := Pull(key, NormalizeWindow(windowSize, DEFAULT_WINDOW), None, 0);
      && Step(INITIAL, r) == State({key}, [p])
      && Step(State({key}, [p]), Arrived(0)) == State({key}, [p.(decoding := 1)])
      && Step(State({key}, [p.(decoding := 1)]), Arrived(0)) == State({key}, [p.(decoding := 2)])
  {
  }

  /** The first one ends it, and the next pull begins. */
  lemma NextBegins(p: Pull, windowSize: Option<real>, first: Response)
    requires p.outcome.None? && p.decoding == 2 && Ends(first, p.key)
    ensures var t := Step(State({p.key}, [p]), Decoded(0, first));
      var next := Pull(p.key, NormalizeWindow(windowSize, DEFAULT_WINDOW), None, 0);
      && |t.pulls| == 1 && t.pulls[0].key == p.key && t.pulls[0].outcome.Some? && t.pulls[0].decoding == 1
      && Step(t, Request(p.key, windowSize, false, false)) == State({p.key}, [t.pulls[0], next])
  {
  }

  lemma OnePending(settled: Pull, next: Pull)
    requires settled.outcome.Some? && next.outcome.None?
    ensures Guarded(State({next.key}, [settled, next])) && Outstanding(State({next.key}, [settled, next]), next.key)
  {
    var s := State({next.key}, [settled, next]);
    assert Pending(s, 1) && s.pulls[1].key == next.key;
  }

  /** Such a state is reached: two responses in decoding for one pull are enough. */
  lemma LateHappens(key: Key, windowSize: Option<real>, first: Response, second: Response)
    requires Ends(first, key) && Ends(second, key)
    ensures var r := Request(key, windowSize, false, false);
      var es := [r, Arrived(0), Arrived(0), Decoded(0, first), r];
      ValidRun(INITIAL, es) && Guarded(After(INITIAL, es)) && Late(After(INITIAL, es), Decoded(0, second))
  {
    var r, p := Request(key, windowSize, false, false), Pull(key, NormalizeWindow(windowSize, DEFAULT_WINDOW), None, 0);
    TwoInDecoding(key, windowSize);
    NextBegins(p.(decoding := 2), windowSize, first);
    var s := State({key}, [p.(decoding := 2)]);
    var t := Step(s, Decoded(0, first));
    var u := Step(t, r);
    OnePending(t.pulls[0], p);
    RunOfFive(INITIAL, r, Arrived(0), Arrived(0), Decoded(0, first), r);
  }

  lemma RunOfFive(s: State, a: Event, b: Event, c: Event, d: Event, e: Event)
    requires Enabled(s, a) && Enabled(Step(s, a), b) && Enabled(Step(Step(s, a), b), c)
    requires Enabled(Step(Step(Step(s, a), b), c), d) && Enabled(Step(Step(Step(Step(s, a), b), c), d), e)
    ensures ValidRun(s, [a, b, c, d, e]) && After(s, [a, b, c, d, e]) == Step(Step(Step(Step(Step(s, a), b), c), d), e)
  {
    var s1, s2 := Step(s, a), Step(Step(s, a), b);
    var s3, s4 := Step(s2, c), Step(Step(s2, c), d);
    Prefixed(s4, e, []);
    Prefixed(s3, d, [e]);
    Prefixed(s2, c, [d, e]);
    Prefixed(s1, b, [c, d, e]);
    Prefixed(s, a, [b, c, d, e]);
    assert [e] + [] == [e] && [d] + [e] == [d, e] && [c] + [d, e] == [c, d, e];
    assert [b] + [c, d, e] == [b, c, d, e] && [a] + [b, c, d, e] == [a, b, c, d, e];
  }

  lemma Prefixed(s: State, e: Event, rest: seq<Event>)
    requires Enabled(s, e) && ValidRun(Step(s, e), rest)
    ensures ValidRun(s, [e] + rest) && After(s, [e] + rest) == After(Step(s, e), rest)
  {
    assert ([e] + rest)[1..] == rest;
  }

  // ---------- outcomes ----------

  /** A pull settles at most once, for good. */
  lemma {:induction false} SettlesOnce(s: State, es: seq<Event>, i: nat)
    requires ValidRun(s, es) && i < |s.pulls|
    ensures i < |After(s, es).pulls| && After(s, es).pulls[i].key == s.pulls[i].key
    ensures s.pulls[i].outcome.Some? ==> After(s, es).pulls[i].outcome == s.pulls[i].outcome
    decreases |es|
  {
    if es != [] {
      SettlesOnce(Step(s, es[0]), es[1..], i);
    }
  }

  /** The windows a pull asks for and is granted. */
  predicate InWindow(window: int) { 1 <= window <= MAX_WINDOW }

  lemma NormalizedIsInWindow(value: Option<real>, fallback: int)
    requires InWindow(fallback)
    ensures InWindow(NormalizeWindow(value, fallback))
  {
  }

  lemma {:induction false} WindowsAreBounded(s: State, es: seq<Event>)
    requires ValidRun(s, es) && forall i :: 0 <= i < |s.pulls| ==> InWindow(s.pulls[i].window)
    ensures forall i :: 0 <= i < |After(s, es).pulls| ==> InWindow(After(s, es).pulls[i].window)
    decreases |es|
  {
    if es != [] {
      if es[0].Request? {
        NormalizedIsInWindow(es[0].windowSize, DEFAULT_WINDOW);
      }
      WindowsAreBounded(Step(s, es[0]), es[1..]);
    }
  }

  /**
   In every run a pull is granted only by a success for its own request and stream, with a window
   from 1 to 1000: the response's, cut at 1000, or without a positive one the window asked for.
   */
  lemma GrantedByItsOwnResponse(es: seq<Event>, e: Event, i: nat)
    requires ValidRun(INITIAL, es) && Enabled(After(INITIAL, es), e) && Pending(After(INITIAL, es), i)
    requires var o := Step(After(INITIAL, es), e).pulls[i].outcome; o.Some? && o.value.Granted?
    ensures var s := After(INITIAL, es); var window := Step(s, e).pulls[i].outcome.value.window;
      && e.Decoded? && e.pull == i && e.response.Success?
      && s.pulls[i].key == Key(e.response.requestId, e.response.streamId)
      && InWindow(window)
      && window == if e.response.windowSize <= 0 then s.pulls[i].window
                   else if e.response.windowSize > MAX_WINDOW then MAX_WINDOW else e.response.windowSize
  {
    WindowsAreBounded(INITIAL, es);
    if e.Decoded? && e.response.Success? {
      assert (e.response.windowSize as real).Floor == e.response.windowSize;
    }
  }
}
