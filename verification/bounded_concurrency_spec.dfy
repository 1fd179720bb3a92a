/**
 Running a worker over the indexes below `total` with a fixed number of runners that take turns.
 Values and errors are opaque tokens; a runner's turn at the head of its loop and the end of a
 worker's promise are the events.
 */
module BoundedConcurrencySpec {
  import opened Wrappers

  datatype Outcome = Value(value: int) | Error(error: int)

  datatype Runner = AtLoop | Working(index: nat) | Finished

  /** One worker that ended, in order of time. */
  datatype End = End(index: nat, outcome: Outcome)

  datatype State = State(total: nat, runners: seq<Runner>, nextIndex: nat, failed: bool, firstError: Option<int>,
                         results: seq<Option<int>>, claimed: seq<nat>, ends: seq<End>)

  function MinNat(a: nat, b: nat): nat { if a < b then a else b }

  function Initial(total: nat, concurrency: nat): State {
    State(total, seq(MinNat(concurrency, total), _ => AtLoop), 0, false, None, seq(total, _ => None), [], [])
  }

  datatype Event = Turn(runner: nat) | Ended(runner: nat, outcome: Outcome)

  predicate Enabled(s: State, e: Event) {
    match e
    case Turn(r) => r < |s.runners| && s.runners[r].AtLoop?
    case Ended(r, _) => r < |s.runners| && s.runners[r].Working? && s.runners[r].index < |s.results|
  }

  function Step(s: State, e: Event): State
    requires Enabled(s, e)
  {
    match e
    case Turn(r) =>
      if s.failed then s.(runners := s.runners[r := Finished])
      else
        var t := s.(nextIndex := s.nextIndex + 1);
        if s.nextIndex >= s.total then t.(runners := s.runners[r := Finished])
        else t.(runners := s.runners[r := Working(s.nextIndex)], claimed := s.claimed + [s.nextIndex])
    case Ended(r, o) =>
      var i := s.runners[r].index;
      var t := s.(runners := s.runners[r := AtLoop], ends := s.ends + [End(i, o)]);
      match o
      case Value(v) => t.(results := s.results[i := Some(v)])
      case Error(e) => t.(failed := true, firstError := if s.failed then s.firstError else Some(e))
  }

  /** All runners have returned. */
  predicate Complete(s: State) {
    forall r :: 0 <= r < |s.runners| ==> s.runners[r].Finished?
  }
}
