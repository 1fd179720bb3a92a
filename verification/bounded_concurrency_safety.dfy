/** Every schedule of the bounded runner, and the item execution that uses it. */
module BoundedConcurrencySafety {
  import opened Wrappers
  import opened BoundedConcurrencySpec

  function FirstError(ends: seq<End>): Option<int> {
    if ends == [] then None
    else
      var earlier := FirstError(ends[..|ends| - 1]);
      if earlier.Some? then earlier
      else if ends[|ends| - 1].outcome.Error? then Some(ends[|ends| - 1].outcome.error)
      else None
  }

  ghost predicate HasEnded(ends: seq<End>, i: nat) {
    exists k :: 0 <= k < |ends| && ends[k].index == i
  }

  /** A result is the value that the worker of that index returned. */
  ghost predicate OwnResult(ends: seq<End>, i: nat, result: Option<int>) {
    result.Some? && exists k :: 0 <= k < |ends| && ends[k] == End(i, Value(result.value))
  }

  ghost predicate InFlight(runners: seq<Runner>, i: nat) {
    exists r :: 0 <= r < |runners| && runners[r] == Working(i)
  }

  /** Indexes are claimed one by one from 0, as far as the runners have come. */
  ghost predicate ClaimsOk(s: State) {
    && |s.claimed| == MinNat(s.nextIndex, s.total)
    && (forall k :: 0 <= k < |s.claimed| ==> s.claimed[k] == k)
    && (forall r :: 0 <= r < |s.runners| && s.runners[r].Finished? ==> s.failed || s.nextIndex >= s.total)
  }

  /** A claimed index is being worked on by one runner, or its worker has ended, once. */
  ghost predicate WorkOk(runners: seq<Runner>, claimed: nat, ends: seq<End>) {
    && (forall r :: 0 <= r < |runners| && runners[r].Working? ==>
          runners[r].index < claimed && !HasEnded(ends, runners[r].index))
    && (forall q, r :: 0 <= q < r < |runners| && runners[q].Working? && runners[r].Working? ==>
          runners[q].index != runners[r].index)
    && (forall k :: 0 <= k < |ends| ==> ends[k].index < claimed)
    && (forall j, k :: 0 <= j < k < |ends| ==> ends[j].index != ends[k].index)
    && (forall i :: 0 <= i < claimed ==> HasEnded(ends, i) || InFlight(runners, i))
  }

  ghost predicate ResultsOk(total: nat, results: seq<Option<int>>, ends: seq<End>) {
    && |results| == total
    && (forall k :: 0 <= k < |ends| && ends[k].index < total ==>
          results[ends[k].index] == if ends[k].outcome.Value? then Some(ends[k].outcome.value) else None)
  }

  ghost predicate ErrorOk(failed: bool, firstError: Option<int>, ends: seq<End>) {
    failed == firstError.Some? && firstError == FirstError(ends)
  }

  ghost predicate Inv(s: State) {
    && ClaimsOk(s) && WorkOk(s.runners, |s.claimed|, s.ends)
    && ResultsOk(s.total, s.results, s.ends) && ErrorOk(s.failed, s.firstError, s.ends)
    && (forall i :: 0 <= i < s.total && !HasEnded(s.ends, i) ==> s.results[i].None?)
  }

  lemma InitialInv(total: nat, concurrency: nat)
    ensures Inv(Initial(total, concurrency))
  {
  }

  lemma TurnKeeps(s: State, r: nat)
    requires Inv(s) && Enabled(s, Turn(r))
    ensures Inv(Step(s, Turn(r)))
  {
    var t := Step(s, Turn(r));
    forall i | 0 <= i < |t.claimed| ensures HasEnded(t.ends, i) || InFlight(t.runners, i) {
      if i < |s.claimed| {
        if !HasEnded(s.ends, i) {
          var q :| 0 <= q < |s.runners| && s.runners[q] == Working(i);
          assert t.runners[q] == Working(i);
        }
      } else {
        assert t.runners[r] == Working(i);
      }
    }
    if !s.failed && s.nextIndex < s.total {
      assert !HasEnded(s.ends, s.nextIndex);
    }
  }

  lemma HasEndedAfter(ends: seq<End>, e: End)
    ensures forall i :: HasEnded(ends + [e], i) <==> HasEnded(ends, i) || i == e.index
  {
    var later := ends + [e];
    forall i ensures HasEnded(later, i) <==> HasEnded(ends, i) || i == e.index {
      if HasEnded(ends, i) {
        var k :| 0 <= k < |ends| && ends[k].index == i;
        assert later[k].index == i;
      }
      assert later[|ends|].index == e.index;
    }
  }

  lemma WorkEnds(runners: seq<Runner>, claimed: nat, ends: seq<End>, r: nat, o: Outcome)
    requires WorkOk(runners, claimed, ends) && r < |runners| && runners[r].Working?
    ensures WorkOk(runners[r := AtLoop], claimed, ends + [End(runners[r].index, o)])
  {
    var n := runners[r].index;
    var later, rest := ends + [End(n, o)], runners[r := AtLoop];
    HasEndedAfter(ends, End(n, o));
    forall i | 0 <= i < claimed ensures HasEnded(later, i) || InFlight(rest, i) {
      if !HasEnded(ends, i) && i != n {
        var q :| 0 <= q < |runners| && runners[q] == Working(i);
        assert rest[q] == Working(i);
      }
    }
    forall k | 0 <= k < |ends| ensures ends[k].index != n {
    }
  }

  lemma EndedKeeps(s: State, r: nat, o: Outcome)
    requires Inv(s) && Enabled(s, Ended(r, o))
    ensures Inv(Step(s, Ended(r, o)))
  {
    var n := s.runners[r].index;
    var later := s.ends + [End(n, o)];
    WorkEnds(s.runners, |s.claimed|, s.ends, r, o);
    HasEndedAfter(s.ends, End(n, o));
    assert later[..|s.ends|] == s.ends;
    ResultEnds(s.total, s.results, s.ends, n, o);
  }

  lemma ResultEnds(total: nat, results: seq<Option<int>>, ends: seq<End>, i: nat, o: Outcome)
    requires ResultsOk(total, results, ends) && i < |results| && !HasEnded(ends, i) && results[i].None?
    ensures ResultsOk(total, if o.Value? then results[i := Some(o.value)] else results, ends + [End(i, o)])
  {
    var later := ends + [End(i, o)];
    forall k | 0 <= k < |later| ensures later[k] == if k < |ends| then ends[k] else End(i, o) {
    }
    forall k | 0 <= k < |ends| ensures ends[k].index != i {
    }
  }

  lemma StepKeeps(s: State, e: Event)
    requires Inv(s) && Enabled(s, e)
    ensures Inv(Step(s, e))
  {
    match e
    case Turn(r) => TurnKeeps(s, r);
    case Ended(r, o) => EndedKeeps(s, r, o);
  }

  ghost predicate ValidRun(s: State, es: seq<Event>)
    decreases |es|
  {
    es == [] || (Enabled(s, es[0]) && ValidRun(Step(s, es[0]), es[1..]))
  }

  ghost function After(s: State, es: seq<Event>): State
    requires ValidRun(s, es)
    decreases |es|
  {
    if es == [] then s else After(Step(s, es[0]), es[1..])
  }

  lemma {:induction false} RunKeeps(s: State, es: seq<Event>)
    requires Inv(s) && ValidRun(s, es)
    ensures var t := After(s, es); Inv(t) && t.total == s.total && |t.runners| == |s.runners|
    ensures s.failed ==>
            After(s, es).failed && After(s, es).claimed == s.claimed && After(s, es).firstError == s.firstError
    decreases |es|
  {
    if es != [] {
      StepKeeps(s, es[0]);
      RunKeeps(Step(s, es[0]), es[1..]);
    }
  }

  // ---------- theorems ----------

  /**
   In every schedule, indexes are claimed in increasing order, each once, and at most min(concurrency, total) are in
   flight.
   */
  lemma ClaimedInOrder(total: nat, concurrency: nat, es: seq<Event>)
    requires ValidRun(Initial(total, concurrency), es)
    ensures var s := After(Initial(total, concurrency), es);
      && |s.claimed| <= total && (forall k :: 0 <= k < |s.claimed| ==> s.claimed[k] == k)
      && |s.runners| == MinNat(concurrency, total)
      && (forall i :: 0 <= i < |s.claimed| ==> HasEnded(s.ends, i) || InFlight(s.runners, i))
      && (forall q, r :: 0 <= q < r < |s.runners| && s.runners[q].Working? && s.runners[r].Working? ==>
            s.runners[q].index != s.runners[r].index)
  {
    InitialInv(total, concurrency);
    RunKeeps(Initial(total, concurrency), es);
  }

  /** Once a worker has failed nothing more is claimed, and the error thrown stays the first one in time. */
  lemma NothingClaimedAfterFailure(s: State, es: seq<Event>)
    requires Inv(s) && ValidRun(s, es) && s.failed
    ensures After(s, es).claimed == s.claimed && After(s, es).firstError == FirstError(s.ends)
  {
    RunKeeps(s, es);
  }

  /**
   When all runners have returned, all claimed work has ended.  If nothing failed, every index was
   claimed and its result is what its own worker returned; otherwise the first error in time is thrown.
   */
  lemma CompletionIsTotal(total: nat, concurrency: nat, es: seq<Event>)
    requires concurrency >= 1 && ValidRun(Initial(total, concurrency), es)
    requires Complete(After(Initial(total, concurrency), es))
    ensures var s := After(Initial(total, concurrency), es);
      && (forall i :: 0 <= i < |s.claimed| ==> HasEnded(s.ends, i))
      && s.firstError == FirstError(s.ends) && (s.failed <==> s.firstError.Some?)
      && (!s.failed ==>
            && |s.claimed| == total == |s.results|
            && forall i :: 0 <= i < total ==> OwnResult(s.ends, i, s.results[i]))
  {
    InitialInv(total, concurrency);
    RunKeeps(Initial(total, concurrency), es);
    var s := After(Initial(total, concurrency), es);
    forall i | 0 <= i < |s.claimed| ensures HasEnded(s.ends, i) {
      assert !InFlight(s.runners, i);
    }
    if !s.failed {
      assert |s.claimed| == total by {
        if total > 0 { assert s.runners[0].Finished?; }
      }
      forall i | 0 <= i < total
        ensures OwnResult(s.ends, i, s.results[i])
      {
        assert HasEnded(s.ends, i);
        var k :| 0 <= k < |s.ends| && s.ends[k].index == i;
        NoErrorNoFailure(s.ends, k);
        assert s.ends[k] == End(i, Value(s.ends[k].outcome.value));
      }
    }
  }

  /** Only the indexes below the total have workers. */
  lemma EndsAreInRange(total: nat, concurrency: nat, es: seq<Event>, k: nat)
    requires ValidRun(Initial(total, concurrency), es) && k < |After(Initial(total, concurrency), es).ends|
    ensures After(Initial(total, concurrency), es).ends[k].index < total
  {
    InitialInv(total, concurrency);
    RunKeeps(Initial(total, concurrency), es);
  }

  lemma {:induction false} NoErrorNoFailure(ends: seq<End>, k: nat)
    requires FirstError(ends).None? && k < |ends|
    ensures ends[k].outcome.Value?
  {
    var n := |ends| - 1;
    if k < n {
      assert ends[..n][k] == ends[k];
      NoErrorNoFailure(ends[..n], k);
    }
  }
}
