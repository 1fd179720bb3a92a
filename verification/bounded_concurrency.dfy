/** The bounded runner with the variables its runners share, and the per-item execution built on it. */
module BoundedConcurrency {
  import opened Wrappers
  import opened BoundedConcurrencySpec
  import Safety = BoundedConcurrencySafety

  class BoundedRun {
    const total: nat
    var runners: seq<Runner>
    var nextIndex: nat
    var failed: bool
    var firstError: Option<int>
    const results: array<Option<int>>
    ghost var claimed: seq<nat>
    ghost var ends: seq<End>

    ghost function View(): State
      reads this, results
    {
      State(total, runners, nextIndex, failed, firstError, results[..], claimed, ends)
    }

    ghost predicate Valid()
      reads this, results
    {
      Safety.Inv(View())
    }

    constructor (total: nat, concurrency: nat)
      ensures Valid() && View() == Initial(total, concurrency) && fresh(results)
    {
      this.total := total;
      runners := seq(MinNat(concurrency, total), _ => AtLoop);
      nextIndex, failed, firstError := 0, false, None;
      results := new Option<int>[total](_ => None);
      claimed, ends := [], [];
      new;
      assert results[..] == seq(total, _ => None);
      Safety.InitialInv(total, concurrency);
    }

    /** A runner at the head of its loop claims the next index, or returns. */
    method Turn(r: nat)
      requires Valid() && r < |runners| && runners[r].AtLoop?
      modifies this
      ensures Valid() && View() == Step(old(View()), BoundedConcurrencySpec.Turn(r))
    {
      Safety.StepKeeps(View(), BoundedConcurrencySpec.Turn(r));
      if failed {
        runners := runners[r := Finished];
        return;
      }
      var index := nextIndex;
      nextIndex := nextIndex + 1;
      if index >= total {
        runners := runners[r := Finished];
      } else {
        runners := runners[r := Working(index)];
        claimed := claimed + [index];
      }
    }

    /** The worker of a runner ends. */
    method Ended(r: nat, outcome: Outcome)
      requires Valid() && Enabled(View(), BoundedConcurrencySpec.Ended(r, outcome))
      modifies this, results
      ensures Valid() && View() == Step(old(View()), BoundedConcurrencySpec.Ended(r, outcome))
    {
      Safety.StepKeeps(View(), BoundedConcurrencySpec.Ended(r, outcome));
      Record(r, outcome);
    }

    method Record(r: nat, outcome: Outcome)
      requires Enabled(View(), BoundedConcurrencySpec.Ended(r, outcome))
      modifies this, results
      ensures View() == Step(old(View()), BoundedConcurrencySpec.Ended(r, outcome))
    {
      ghost var before := View();
      var index := runners[r].index;
      match outcome {
        case Value(value) =>
          results[index] := Some(value);
          assert results[..] == before.results[index := Some(value)];
        case Error(error) =>
          if !failed {
            firstError := Some(error);
          }
          failed := true;
      }
      runners := runners[r := AtLoop];
      ends := ends + [End(index, outcome)];
    }
  }

  // ---------- executePerInputItem ----------

  /** The outcome of processing each item: the token of a list of output items, or an error. */
  type Worker = nat -> Outcome

  function ItemsOf(o: Outcome, listOf: int -> seq<int>): seq<int> {
    if o.Value? then listOf(o.value) else []
  }

  /** What the first n items put into the output. */
  function Outputs(worker: Worker, listOf: int -> seq<int>, n: nat): seq<int> {
    if n == 0 then [] else Outputs(worker, listOf, n - 1) + ItemsOf(worker(n - 1), listOf)
  }

  /** Item i fails, and no item before it. */
  ghost predicate FailsFirst(worker: Worker, i: nat) {
    worker(i).Error? && forall j :: 0 <= j < i ==> worker(j).Value?
  }

  /** The sequential path: the items in order, until one fails. */
  method ExecuteSequentially(n: nat, worker: Worker, listOf: int -> seq<int>) returns (r: Result<seq<int>, int>)
    ensures r.Ok? <==> forall i :: 0 <= i < n ==> worker(i).Value?
    ensures r.Ok? ==> r.value == Outputs(worker, listOf, n)
    ensures r.Err? ==> exists i :: 0 <= i < n && FailsFirst(worker, i) && worker(i) == Error(r.error)
  {
    var outputItems := [];
    for itemIndex := 0 to n
      invariant forall i :: 0 <= i < itemIndex ==> worker(i).Value?
      invariant outputItems == Outputs(worker, listOf, itemIndex)
    {
      var outcome := worker(itemIndex);
      if outcome.Error? {
        assert FailsFirst(worker, itemIndex);
        return Err(outcome.error);
      }
      var produced := listOf(outcome.value);
      for k := 0 to |produced|
        invariant outputItems == Outputs(worker, listOf, itemIndex) + produced[..k]
      {
        outputItems := outputItems + [produced[k]];
      }
    }
    return Ok(outputItems);
  }

  /** The end of the parallel path: the slots in order, each flattened; a slot's token stands for its list. */
  method CollectSlots(slots: seq<Option<int>>, listOf: int -> seq<int>) returns (outputItems: seq<int>)
    requires forall i :: 0 <= i < |slots| ==> slots[i].Some?
    ensures outputItems == Flatten(slots, listOf)
  {
    outputItems := [];
    for s := 0 to |slots|
      invariant outputItems == Flatten(slots[..s], listOf)
    {
      assert slots[..s + 1][..s] == slots[..s];
      var produced := listOf(slots[s].value);
      for k := 0 to |produced|
        invariant outputItems == Flatten(slots[..s], listOf) + produced[..k]
      {
        outputItems := outputItems + [produced[k]];
      }
    }
    assert slots[..|slots|] == slots;
  }

  function Flatten(slots: seq<Option<int>>, listOf: int -> seq<int>): seq<int> {
    if slots == [] then []
    else
      var last := slots[|slots| - 1];
      Flatten(slots[..|slots| - 1], listOf) + (if last.Some? then listOf(last.value) else [])
  }

  /** Workers are deterministic: whenever the worker of an index ends, it ends in that index's way. */
  ghost predicate Deterministic(ends: seq<End>, worker: Worker) {
    forall k :: 0 <= k < |ends| ==> ends[k].outcome == worker(ends[k].index)
  }

  lemma {:induction false} FlattenIsOutputs(slots: seq<Option<int>>, worker: Worker, listOf: int -> seq<int>)
    requires forall i :: 0 <= i < |slots| ==> slots[i].Some? && worker(i) == Value(slots[i].value)
    ensures Flatten(slots, listOf) == Outputs(worker, listOf, |slots|)
  {
    if slots != [] {
      FlattenIsOutputs(slots[..|slots| - 1], worker, listOf);
    }
  }

  /** The error that is thrown comes from a worker that ended. */
  lemma {:induction false} ErrorHasWorker(ends: seq<End>) returns (k: nat)
    requires Safety.FirstError(ends).Some?
    ensures k < |ends| && ends[k].outcome == Error(Safety.FirstError(ends).value)
  {
    var n := |ends| - 1;
    if Safety.FirstError(ends[..n]).Some? {
      k := ErrorHasWorker(ends[..n]);
    } else {
      k := n;
    }
  }

  /**
   For deterministic workers, whatever the concurrency and the schedule: the parallel path fails
   exactly if the sequential one does, with the error of some item that fails; and if no item fails
   both put out the same items in the same order.
   */
  lemma ParallelIsSequential(total: nat, concurrency: nat, es: seq<Event>, worker: Worker, listOf: int -> seq<int>)
    requires concurrency >= 1 && Safety.ValidRun(Initial(total, concurrency), es)
    requires Complete(Safety.After(Initial(total, concurrency), es))
    requires Deterministic(Safety.After(Initial(total, concurrency), es).ends, worker)
    ensures var s := Safety.After(Initial(total, concurrency), es);
      && (s.failed <==> exists i :: 0 <= i < total && worker(i).Error?)
      && (s.failed ==> s.firstError.Some? && exists i :: 0 <= i < total && worker(i) == Error(s.firstError.value))
      && (!s.failed ==> Flatten(s.results, listOf) == Outputs(worker, listOf, total))
  {
    var s := Safety.After(Initial(total, concurrency), es);
    Safety.CompletionIsTotal(total, concurrency, es);
    if s.failed {
      var k := ErrorHasWorker(s.ends);
      Safety.EndsAreInRange(total, concurrency, es, k);
      assert worker(s.ends[k].index) == Error(s.firstError.value);
    } else {
      forall i | 0 <= i < total ensures s.results[i].Some? && worker(i) == Value(s.results[i].value) {
        assert Safety.OwnResult(s.ends, i, s.results[i]);
      }
      FlattenIsOutputs(s.results, worker, listOf);
    }
  }
}
