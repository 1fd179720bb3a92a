/** What each turn and each end does to a bounded run, and that every schedule comes to an end. */
module BoundedConcurrencyEffects {
  import opened Collections
  import opened Wrappers
  import opened BoundedConcurrencySpec
  import opened BoundedConcurrencySafety

  /**
   A runner claims the lowest index nobody has claimed, unless there is none or a worker has failed; then it
   returns.
   */
  lemma TurnsExactly(s: State, r: nat)
    requires Inv(s) && Enabled(s, Turn(r))
    ensures var t, n := Step(s, Turn(r)), |s.claimed|;
      && t.total == s.total && t.results == s.results && t.ends == s.ends
      && t.failed == s.failed && t.firstError == s.firstError
      && if !s.failed && n < s.total then t.runners == s.runners[r := Working(n)] && t.claimed == s.claimed + [n]
         else t.runners == s.runners[r := Finished] && t.claimed == s.claimed
  {
  }

  /** A worker that ends leaves its value in its own slot, or its error if it is the first, and its runner goes on. */
  lemma EndsExactly(s: State, r: nat, o: Outcome)
    requires Inv(s) && Enabled(s, Ended(r, o))
    ensures var t, i := Step(s, Ended(r, o)), s.runners[r].index;
      && t.total == s.total && t.runners == s.runners[r := AtLoop] && t.claimed == s.claimed
      && t.ends == s.ends + [End(i, o)]
      && (o.Value? ==>
          t.results == s.results[i := Some(o.value)] && t.failed == s.failed && t.firstError == s.firstError)
      && (o.Error? ==>
            && t.results == s.results && t.failed
            && t.firstError == if s.firstError.Some? then s.firstError else Some(o.error))
  {
  }

  // ---------- every schedule ends ----------

  function Returned(runners: seq<Runner>): nat {
    if runners == [] then 0
    else Returned(runners[..|runners| - 1]) + (if runners[|runners| - 1].Finished? then 1 else 0)
  }

  lemma {:induction false} ReturnedUpdate(runners: seq<Runner>, r: nat, x: Runner)
    requires r < |runners|
    ensures Returned(runners[r := x]) ==
            Returned(runners) - (if runners[r].Finished? then 1 else 0) + (if x.Finished? then 1 else 0)
  {
    var n := |runners| - 1;
    if r < n {
      ReturnedUpdate(runners[..n], r, x);
      assert runners[r := x][..n] == runners[..n][r := x];
    } else {
      assert runners[r := x][..n] == runners[..n];
    }
  }

  lemma {:induction false} ReturnedBounds(runners: seq<Runner>)
    ensures Returned(runners) <= |runners|
    ensures Returned(runners) == |runners| <==> forall r :: 0 <= r < |runners| ==> runners[r].Finished?
  {
    if runners != [] {
      var n := |runners| - 1;
      ReturnedBounds(runners[..n]);
      assert forall r :: 0 <= r < n ==> runners[..n][r] == runners[r];
    }
  }

  lemma {:induction false} NoneReturned(runners: seq<Runner>)
    requires forall r :: 0 <= r < |runners| ==> runners[r].AtLoop?
    ensures Returned(runners) == 0
  {
    if runners != [] {
      NoneReturned(runners[..|runners| - 1]);
    }
  }

  /** The turns and ends of a state: each claim took a turn, each runner that has returned one more. */
  function Events(s: State): nat { |s.claimed| + |s.ends| + Returned(s.runners) }

  lemma StepCounts(s: State, e: Event)
    requires Inv(s) && Enabled(s, e)
    ensures Events(Step(s, e)) == Events(s) + 1
  {
    match e
    case Turn(r) =>
      ReturnedUpdate(s.runners, r, Working(|s.claimed|));
      ReturnedUpdate(s.runners, r, Finished);
    case Ended(r, o) => ReturnedUpdate(s.runners, r, AtLoop);
  }

  lemma {:induction false} RunCounts(s: State, es: seq<Event>)
    requires Inv(s) && ValidRun(s, es)
    ensures Events(After(s, es)) == Events(s) + |es|
    decreases |es|
  {
    if es != [] {
      StepCounts(s, es[0]);
      StepKeeps(s, es[0]);
      RunCounts(Step(s, es[0]), es[1..]);
    }
  }

  function Indexes(ends: seq<End>): set<nat> {
    if ends == [] then {} else Indexes(ends[..|ends| - 1]) + {ends[|ends| - 1].index}
  }

  function Below(n: nat): set<nat> { if n == 0 then {} else Below(n - 1) + {n - 1} }

  lemma {:induction false} BelowSize(n: nat)
    ensures |Below(n)| == n && forall i :: 0 <= i < n <==> i in Below(n)
  {
    if n > 0 {
      BelowSize(n - 1);
    }
  }

  lemma {:induction false} IndexesSize(ends: seq<End>)
    requires forall j, k :: 0 <= j < k < |ends| ==> ends[j].index != ends[k].index
    ensures |Indexes(ends)| == |ends|
    ensures forall i :: i in Indexes(ends) ==> HasEnded(ends, i)
  {
    if ends != [] {
      var n := |ends| - 1;
      IndexesSize(ends[..n]);
      assert ends == ends[..n] + [ends[n]];
      HasEndedAfter(ends[..n], ends[n]);
      assert !HasEnded(ends[..n], ends[n].index);
    }
  }

  /** No more workers end than have been started. */
  lemma EndsAreClaimed(s: State)
    requires Inv(s)
    ensures |s.ends| <= |s.claimed| <= s.total
  {
    IndexesSize(s.ends);
    BelowSize(|s.claimed|);
    SubsetSize(Indexes(s.ends), Below(|s.claimed|));
  }

  /**
   Every schedule comes to an end: it has at most two events for each index and one for each runner,
   and as long as some runner has not returned, a next event is possible.
   */
  lemma EveryScheduleEnds(total: nat, concurrency: nat, es: seq<Event>)
    requires ValidRun(Initial(total, concurrency), es)
    ensures |es| <= 2 * total + MinNat(concurrency, total)
    ensures var s := After(Initial(total, concurrency), es); !Complete(s) ==> exists e :: Enabled(s, e)
  {
    var s0 := Initial(total, concurrency);
    InitialInv(total, concurrency);
    RunKeeps(s0, es);
    RunCounts(s0, es);
    NoneReturned(s0.runners);
    var s := After(s0, es);
    EndsAreClaimed(s);
    ReturnedBounds(s.runners);
    if r :| 0 <= r < |s.runners| && !s.runners[r].Finished? {
      if s.runners[r].AtLoop? {
        assert Enabled(s, Turn(r));
      } else {
        assert Enabled(s, Ended(r, Error(0)));
      }
    }
  }
}
